// Onboarding: three pages with a "next" button that turns into "start" on the
// last page, and a skip button that is hidden there.

module Onboarding {
  /** `OnboardingAdapter.getItemCount()`: the three introduction pages. */
  const ItemCount: nat := 3
  const NextLabel := "다음"
  const StartLabel := "시작하기"

  /** `updateButtonState(position)`: the main button's caption and whether skip is visible. */
  datatype ButtonState = ButtonState(caption: string, skipVisible: bool)

  function StateFor(position: nat): (b: ButtonState)
    ensures b.caption == StartLabel <==> position == ItemCount - 1
    ensures b.skipVisible <==> position != ItemCount - 1
  {
    if position == ItemCount - 1 then ButtonState(StartLabel, false) else ButtonState(NextLabel, true)
  }

  class OnboardingScreen {
    /** `viewPager.currentItem` */
    var currentItem: nat
    var buttons: ButtonState
    /** Set once the screen has gone on to the sign-in screen and finished. */
    var navigatedToAuth: bool

    /** The page is a real page and the buttons show that page's state. */
    ghost predicate Valid()
      reads this
    {
      currentItem < ItemCount && buttons == StateFor(currentItem)
    }

    /** `onCreate`: the first page, with the buttons set for it. */
    constructor ()
      ensures Valid() && currentItem == 0 && !navigatedToAuth
      ensures buttons.caption == NextLabel && buttons.skipVisible
    {
      currentItem := 0;
      navigatedToAuth := false;
      buttons := StateFor(0);
    }

    /** `onPageSelected(position)`, also when the user swipes to a page. */
    method OnPageSelected(position: nat)
      requires position < ItemCount
      modifies this
      ensures Valid() && currentItem == position && navigatedToAuth == old(navigatedToAuth)
    {
      currentItem := position;
      buttons := StateFor(position);
    }

    /**
     * The main button: before the last page it moves on exactly one page; on the
     * last page it goes to the sign-in screen.
     */
    method OnNextStartClicked()
      requires Valid()
      modifies this
      ensures Valid()
      ensures old(currentItem) < ItemCount - 1 ==>
                currentItem == old(currentItem) + 1 && navigatedToAuth == old(navigatedToAuth)
      ensures old(currentItem) == ItemCount - 1 ==> currentItem == old(currentItem) && navigatedToAuth
    {
      if currentItem < ItemCount - 1 {
        OnPageSelected(currentItem + 1);
      } else {
        navigatedToAuth := true;
      }
    }

    /** The skip button: straight to the sign-in screen from any page. */
    method OnSkipClicked()
      requires Valid()
      modifies this
      ensures Valid() && currentItem == old(currentItem) && navigatedToAuth
    {
      navigatedToAuth := true;
    }
  }

  /**
   * From the first page, two presses reach the last page, which offers "시작하기"
   * without skip, and the third press leaves for the sign-in screen.
   */
  method ThreePressesFinish() returns (screen: OnboardingScreen)
    ensures screen.navigatedToAuth && screen.currentItem == ItemCount - 1
    ensures screen.buttons == ButtonState(StartLabel, false)
  {
    screen := new OnboardingScreen();
    screen.OnNextStartClicked();
    screen.OnNextStartClicked();
    assert !screen.navigatedToAuth && screen.currentItem == 2;
    screen.OnNextStartClicked();
  }
}
