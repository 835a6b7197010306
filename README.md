# overnight — a Dafny model of the app's screens

"overnight" is an Android app that grades recorded presentations. A user signs up,
keeps presentation topics with a scoring rubric in folders, uploads a video, and the
analysis service scores it against the rubric; the app then polls for the result,
stores the graded report in Firestore, and lists, compares and exports the reports.

This project models the logic of those screens in Dafny:

- **Onboarding and sign-up**: the pager's button states, and the form checks in front of
  account creation. The birth date is written as `dd/MM/yyyy`, and the stored user
  record is modelled too.
- **Topic form** (`PresentationInfo`): rubric cards are added and deleted, then validated
  (folder chosen, every field filled, points summing to 100 in a 32-bit `Int`), and the
  topic document is written. The exact-sum rule the check intends is modelled beside it.
- **Upload** (`Upload`): the file name is taken from the picked `Uri`. The stored rubric
  is decoded and sent with the video, and the job id is handed to the progress screen.
- **Progress** (`AnalysisProgress`): polling the job until it completes or fails.
  Rubric lines are matched to the service's reviews by name, and the graded report is
  built and stored.
- **Results** (`AnalysisResult`, `FileList`, `SubjectFolder`): reports are read back
  into the result screen and the comparison sheet with sorted criteria columns.
  Export file names are derived. The lists show the folders and files of a user.
- **Folder tree** (`FolderItem`, `FolderAdapter`, `FolderFragment`, `TrashNotes`,
  `TrashAdapter`): an in-memory tree of groups and folders whose objects are shared
  between the screens. It supports rename, move to trash, restore and add, and the
  expandable list is recomputed from the tree. Also modelled: the add-folder and
  rename dialogs, and the bottom sheet that picks a stored folder for the topic form.

Mutable screens are classes whose methods change their fields. The shared folder tree
is a set of `Group`/`Child` objects, with datatype snapshots (`View`) for
specifications. Decoding and formatting are functions.

Firestore documents are `map<string, Value>`. Kotlin's 32-bit `Int` arithmetic is
written out as wrap-around (`Int32.Wrap`). Kotlin's `trim`, `toIntOrNull`, `contains`,
`lastIndexOf`, `replace`, `take`, `sorted` and `%02d` formatting are in `Text`.

Module by module:

| module | file |
|---|---|
| `Wrappers` | `Option` |
| `Int32` | 32-bit wrap-around |
| `Text` | string helpers |
| `Firestore` | document values and typed getters |
| `AnalysisProgress` | `analysis_progress.dfy` |
| `AnalysisResult` | `analysis_result.dfy` |
| `PresentationInfo` | `presentation_info.dfy` |
| `Upload` | `upload.dfy` |
| `FileList` | `file_list.dfy` |
| `SubjectFolder` | `subject_folder.dfy` |
| `FolderSelection` | `folder_selection.dfy` |
| `FolderItem` | `folder_item.dfy` |
| `FolderAdapter` | `folder_adapter.dfy` |
| `TrashAdapter` | `trash_adapter.dfy` |
| `TrashNotes` | `trash_notes.dfy` |
| `FolderFragment` | `folder_fragment.dfy` |
| `AddChildDialog` | `add_child_dialog.dfy` |
| `RenameFolderDialog` | `rename_folder_dialog.dfy` |
| `SignUp` | `sign_up.dfy` |
| `Onboarding` | `onboarding.dfy` |

## Model

| member | source | states |
|---|---|---|
| AnalysisProgress.Decide | app/src/main/java/com/minyook/overnight/ui/file/AnalysisProgressActivity.kt:71-96 | One status answer decides the next step. "Complete" saves the result, "Error" fails with the server message or a default, and any other status polls again after 1 s. An unsuccessful response, a missing body or a transport failure polls again after 2 s. |
| AnalysisProgress.RunStopsAtFirstTerminal | app/src/main/java/com/minyook/overnight/ui/file/AnalysisProgressActivity.kt:62-98 | Polling over a sequence of answers reschedules with each earlier answer's delay and stops at the first "Complete" or "Error" answer. Nothing after it is consumed; without one, every answer is consumed. |
| AnalysisProgress.RunTerminalIff | app/src/main/java/com/minyook/overnight/ui/file/AnalysisProgressActivity.kt:75-87 | Polling ends in a save or a failure exactly when some answer is terminal. |
| AnalysisProgress.InProgressTwiceThenComplete | app/src/main/java/com/minyook/overnight/ui/file/AnalysisProgressActivity.kt:75-86 | Two "InProgress" answers and then "Complete" save that result after three polls, with two 1 s delays. |
| AnalysisProgress.FailuresThenComplete | app/src/main/java/com/minyook/overnight/ui/file/AnalysisProgressActivity.kt:88-96 | Transport failures never stop the polling: after two 2 s retries the completion is still saved. |
| AnalysisProgress.FindMatch | app/src/main/java/com/minyook/overnight/ui/file/AnalysisProgressActivity.kt:149 | The review chosen for a rubric line is the first whose name contains the line's name or is contained in it; none when no review matches. |
| AnalysisProgress.BuildOverallFeedback | app/src/main/java/com/minyook/overnight/ui/file/AnalysisProgressActivity.kt:131-138 | The overall feedback is the summary ("피드백 없음" without one), with the video summary appended under its header when non-empty. When there are no reviews and a text feedback exists, it is that text instead. |
| AnalysisProgress.ReconcileScores | app/src/main/java/com/minyook/overnight/ui/file/AnalysisProgressActivity.kt:141-162 | Each rubric line gets the matched review's score and feedback, or 0 and "분석 내용 없음". The total is the 32-bit wrapping sum of the line scores. |
| AnalysisProgress.BuildPresentationData | app/src/main/java/com/minyook/overnight/ui/file/AnalysisProgressActivity.kt:118-173 | The stored report carries the topic's team and topic name (with defaults), the overall feedback, the reconciled lines, their total, status "completed" and the grading time. |
| AnalysisProgress.ReportLines | app/src/main/java/com/minyook/overnight/ui/file/AnalysisProgressActivity.kt:144-162 | The report has one line per rubric line, in rubric order, with the rubric's name and maximum. A line takes the first matching review's score and feedback, or 0 and the default text when none matches. |
| AnalysisProgress.TotalIsSumOfLines | app/src/main/java/com/minyook/overnight/ui/file/AnalysisProgressActivity.kt:142-154 | The stored total is the exact sum of the line scores wrapped to 32 bits. |
| AnalysisProgress.RubricRoundTrip | app/src/main/java/com/minyook/overnight/ui/file/AnalysisProgressActivity.kt:120-124 | A topic written by the topic form is read back by the progress screen: same team, topic name, and rubric names and maxima in order. |
| AnalysisProgress.NoReviewsScoresZero | app/src/main/java/com/minyook/overnight/ui/file/AnalysisProgressActivity.kt:149-154 | Without reviews every line scores 0 with the default feedback, and the total is 0. |
| AnalysisProgress.ExactNameScores | app/src/main/java/com/minyook/overnight/ui/file/AnalysisProgressActivity.kt:149-152 | A line whose name equals a review's name, with no earlier matching review, gets that review's score and feedback. |
| AnalysisProgress.EmptyNameTakesFirstReview | app/src/main/java/com/minyook/overnight/ui/file/AnalysisProgressActivity.kt:145-151 | A line with an empty name matches the first review, whatever its name. |
| AnalysisProgress.ReviewCreditsManyLines | app/src/main/java/com/minyook/overnight/ui/file/AnalysisProgressActivity.kt:144-151 | One review can be credited to several lines: each line with its name gets its score. |
| AnalysisProgress.OverallFeedbackCases | app/src/main/java/com/minyook/overnight/ui/file/AnalysisProgressActivity.kt:131-138 | Without reviews and with a text feedback the result is that text. Otherwise it starts with the summary, and it is longer exactly when a video summary is appended under its header. |
| AnalysisProgress.ProgressScreen.constructor | app/src/main/java/com/minyook/overnight/ui/file/AnalysisProgressActivity.kt:47-59 | With all four ids the first poll is queued after 1 s. With any id missing nothing is queued and the screen finishes. |
| AnalysisProgress.ProgressScreen.Fire | app/src/main/java/com/minyook/overnight/ui/file/AnalysisProgressActivity.kt:33-37 | The queued poll leaves the queue and a status request is in flight. |
| AnalysisProgress.ProgressScreen.ShowError | app/src/main/java/com/minyook/overnight/ui/file/AnalysisProgressActivity.kt:208-213 | On a valid screen the message is shown, every queued poll is removed and the screen stays valid. |
| AnalysisProgress.ProgressScreen.OnResponse | app/src/main/java/com/minyook/overnight/ui/file/AnalysisProgressActivity.kt:67-96 | An answer re-queues the poll with the delay `Decide` gives, or starts saving the result, or shows the error. A "Complete" answer without a result shows "결과 데이터가 비어있습니다.". After a terminal answer nothing is queued. |
| AnalysisProgress.ProgressScreen.OnTopicLoaded | app/src/main/java/com/minyook/overnight/ui/file/AnalysisProgressActivity.kt:105-191 | For a result the poller saved, a found topic gives the report of `PresentationDataOf` with that result's assessment and leaves the poll queue alone. A missing topic and a failed read each show their error and empty the poll queue. |
| AnalysisProgress.ProgressScreen.OnReportWritten | app/src/main/java/com/minyook/overnight/ui/file/AnalysisProgressActivity.kt:176-206 | A stored report opens the result screen with its id and finishes; a failed write shows the error. |
| AnalysisProgress.ProgressScreen.OnDestroy | app/src/main/java/com/minyook/overnight/ui/file/AnalysisProgressActivity.kt:215-218 | Leaving the screen removes every queued poll; a request already in flight is not cancelled. |
| AnalysisProgress.LateResponseStillPolls | app/src/main/java/com/minyook/overnight/ui/file/AnalysisProgressActivity.kt:93-96 | A failed status request whose answer arrives after the screen was destroyed still queues a poll 2 s later: the destroyed screen keeps polling. |
| AnalysisResult.DecodeResultList | app/src/main/java/com/minyook/overnight/ui/file/AnalysisResultActivity.kt:112-122 | The result list is `DecodeCriteria` of the stored scores: one criterion per stored map, in order, each field defaulting to "" or 0; empty without a list. |
| AnalysisResult.ReportRoundTrip | app/src/main/java/com/minyook/overnight/ui/file/AnalysisResultActivity.kt:104-121 | A report written by the progress screen reads back with the same team, topic, feedback and total, and the same criteria in order. |
| AnalysisResult.MissingFieldsDefault | app/src/main/java/com/minyook/overnight/ui/file/AnalysisResultActivity.kt:105-113 | A report without scores and team, whose total is missing or not a number, reads as no criteria, total 0 and "Unknown Team". |
| AnalysisResult.NamesInIff | app/src/main/java/com/minyook/overnight/ui/file/AnalysisResultActivity.kt:197-203 | A name is collected from one score list exactly when some entry of it has that name as a string. |
| AnalysisResult.CriteriaNamesIff | app/src/main/java/com/minyook/overnight/ui/file/AnalysisResultActivity.kt:195-204 | The column set holds exactly the criterion names found in any of the compared reports. |
| AnalysisResult.BuildColumns | app/src/main/java/com/minyook/overnight/ui/file/AnalysisResultActivity.kt:195-205 | The columns are strictly sorted and hold exactly those names. |
| AnalysisResult.FindEntry | app/src/main/java/com/minyook/overnight/ui/file/AnalysisResultActivity.kt:223 | A column's cell comes from the first score entry named after it; none when no entry has that name. |
| AnalysisResult.BuildSheet | app/src/main/java/com/minyook/overnight/ui/file/AnalysisResultActivity.kt:207-233 | The sheet is a header row ("팀명", the sorted columns, "총점") and then one row per report, in query order. |
| AnalysisResult.RowShape | app/src/main/java/com/minyook/overnight/ui/file/AnalysisResultActivity.kt:214-233 | Every row is as wide as the header. A cell is "-" exactly when the report has no entry of that column's name. |
| AnalysisResult.FileNamesSpec | app/src/main/java/com/minyook/overnight/ui/file/AnalysisResultActivity.kt:235-255 | Export names have no spaces. The sheet name is, character by character, the content name with spaces made underscores, "_", the topic name treated the same way, and ".xlsx". The PDF name is the trimmed team name with spaces made underscores, or "Team_Unknown" when it is blank, followed by ".pdf". |
| AnalysisResult.MaxTotal | app/src/main/java/com/minyook/overnight/ui/file/AnalysisResultActivity.kt:275-279 | The PDF's maximum is the sum of the criteria maxima wrapped to 32 bits. |
| AnalysisResult.ResultScreen.constructor | app/src/main/java/com/minyook/overnight/ui/file/AnalysisResultActivity.kt:57-67 | The screen keeps the ids from its intent and starts empty. With a report id the summary shows the loading text "데이터 불러오는 중..." while the report is read (it stays there if the read fails or finds nothing); without one the summary is empty and the screen finishes. |
| AnalysisResult.ResultScreen.OnContentLoaded | app/src/main/java/com/minyook/overnight/ui/file/AnalysisResultActivity.kt:88-96 | An existing content document sets the content name ("과목" without one); a missing one changes nothing. |
| AnalysisResult.ResultScreen.OnReportLoaded | app/src/main/java/com/minyook/overnight/ui/file/AnalysisResultActivity.kt:98-134 | An existing report sets team, topic, feedback, total and criteria as `DecodeReport` gives them. A missing report finishes the screen, and a failed read reports the error; in both cases team, topic, total and summary are unchanged. |
| AnalysisResult.ResultScreen.SaveExcel | app/src/main/java/com/minyook/overnight/ui/file/AnalysisResultActivity.kt:169-180 | Without a topic name the export is refused; otherwise the reports of that topic are queried. |
| AnalysisResult.ResultScreen.OnComparisonLoaded | app/src/main/java/com/minyook/overnight/ui/file/AnalysisResultActivity.kt:181-242 | No reports gives "비교할 데이터가 없습니다.". Otherwise the sheet has a header and one equally wide row per report over sorted columns holding every criterion name, saved under the content-and-topic file name. |
| AnalysisResult.ResultScreen.SavePdf | app/src/main/java/com/minyook/overnight/ui/file/AnalysisResultActivity.kt:250-280 | The PDF is saved under the team's file name, and its maximum is the wrapped sum of the shown criteria's maxima. |
| PresentationInfo.SubmitIff | app/src/main/java/com/minyook/overnight/ui/mainscrean/PresentationInfoActivity.kt:128-182 | With the points added exactly, a topic is written exactly when a folder is chosen, team and topic are not blank, every card has a name and points, and the points sum to 100. The document carries the folder id, the trimmed texts, the time, and one rubric line per card in card order: its trimmed name, its trimmed detail, and its points (0 when they do not parse). |
| PresentationInfo.SubmitAsWrittenIff | app/src/main/java/com/minyook/overnight/ui/mainscrean/PresentationInfoActivity.kt:128-182 | As the code has it, a topic is written exactly when a folder is chosen, team and topic are not blank, every card has a name and points, and the exact sum of the points wrapped to 32 bits is 100. The document is the same as under the exact rule. |
| PresentationInfo.FolderCheckedFirst | app/src/main/java/com/minyook/overnight/ui/mainscrean/PresentationInfoActivity.kt:129-132 | Without a chosen folder the save is refused for that reason first, whatever else the form holds. |
| PresentationInfo.AsWrittenAgreesWithoutOverflow | app/src/main/java/com/minyook/overnight/ui/mainscrean/PresentationInfoActivity.kt:143-174 | When the exact sum of the points fits in 32 bits, the code as written decides exactly as the exact rule does. |
| PresentationInfo.OverflowRule | app/src/main/java/com/minyook/overnight/ui/mainscrean/PresentationInfoActivity.kt:160-174 | For filled cards with points 2147483647, 2147483647 and 102, the code as written submits, while the exact rule refuses with total 4294967396. |
| PresentationInfo.OverflowingPoints | app/src/main/java/com/minyook/overnight/ui/mainscrean/PresentationInfoActivity.kt:160-161 | Those three points add up to 100 in 32-bit `Int` arithmetic and to 4294967396 exactly. |
| PresentationInfo.OverflowPassesAsWritten | app/src/main/java/com/minyook/overnight/ui/mainscrean/PresentationInfoActivity.kt:160-174 | A concrete form with cards "2147483647", "2147483647" and "102" is submitted as written, and refused by the exact rule. |
| PresentationInfo.UnparsablePointsCountZero | app/src/main/java/com/minyook/overnight/ui/mainscrean/PresentationInfoActivity.kt:160 | Points text that starts with neither a sign nor a digit counts as 0. |
| PresentationInfo.ReadCards | app/src/main/java/com/minyook/overnight/ui/mainscrean/PresentationInfoActivity.kt:143-169 | Reading the cards stops with nothing exactly when some card lacks a name or points. Otherwise it gives one rubric line per card in order, and the sum of their points added up in a wrapping `Int`. |
| PresentationInfo.TopicForm.constructor | app/src/main/java/com/minyook/overnight/ui/mainscrean/PresentationInfoActivity.kt:78-79 | The form opens with one empty card, no folder, and the start button enabled. |
| PresentationInfo.TopicForm.AddItemClicked | app/src/main/java/com/minyook/overnight/ui/mainscrean/PresentationInfoActivity.kt:60-66 | Below five cards a new empty card is appended. At five the cards stay as they are and the limit message is shown. |
| PresentationInfo.TopicForm.DeleteCard | app/src/main/java/com/minyook/overnight/ui/mainscrean/PresentationInfoActivity.kt:115-118 | The card is removed; the rest keep their order. |
| PresentationInfo.TopicForm.EditCard | app/src/main/java/com/minyook/overnight/ui/mainscrean/PresentationInfoActivity.kt:145-153 | Typing into card i replaces that card only; the other cards and fields are unchanged. |
| PresentationInfo.TopicForm.OnFolderSelected | app/src/main/java/com/minyook/overnight/ui/mainscrean/PresentationInfoActivity.kt:123-126 | The chosen folder's id is remembered and its name shown. |
| PresentationInfo.TopicForm.SaveTopic | app/src/main/java/com/minyook/overnight/ui/mainscrean/PresentationInfoActivity.kt:128-184 | The outcome is `OutcomeAsWritten` of the form, the rule with the wrapping `Int` total. The start button is disabled exactly when the topic is submitted; the form is unchanged. |
| PresentationInfo.TopicForm.OnTopicWritten | app/src/main/java/com/minyook/overnight/ui/mainscrean/PresentationInfoActivity.kt:189-202 | While a write is pending (start button disabled, so a folder is chosen), a stored topic opens the upload screen with the chosen folder id and the new topic id. A failed write enables the start button again. |
| PresentationInfo.SaveThenStored | app/src/main/java/com/minyook/overnight/ui/mainscrean/PresentationInfoActivity.kt:175-197 | A save that submits, followed by a successful write, opens the upload screen with the written document's `contentId` and the new topic id; a save that does not submit navigates nowhere. |
| Upload.FileName | app/src/main/java/com/minyook/overnight/ui/file/UploadActivity.kt:212-233 | A content `Uri` with a display name gives that name. Otherwise the name is the part of the path after its last '/' (a suffix of the path holding no '/'), or the whole path. Without a path it is "temp_video.mp4". |
| Upload.FileNameFromUri | app/src/main/java/com/minyook/overnight/ui/file/UploadActivity.kt:212-233 | The step-by-step lookup, which overwrites its result as each source is tried, gives exactly `FileName`. |
| Upload.DecodeCriteria | app/src/main/java/com/minyook/overnight/ui/file/UploadActivity.kt:122-132 | One criterion per stored rubric map, in order, with defaults for missing fields; none without a list. |
| Upload.CriteriaRoundTrip | app/src/main/java/com/minyook/overnight/ui/file/UploadActivity.kt:122-131 | A topic map in the topic form's encoding (`EncodeTopic`) decodes to criteria with the same names, points and details, in order. This is a statement about the two encodings agreeing, not a data flow: the upload screen reads its rubric from another path. |
| Upload.UploadScreen.constructor | app/src/main/java/com/minyook/overnight/ui/file/UploadActivity.kt:60-62 | The screen holds the three ids from its intent, with no file picked. |
| Upload.UploadScreen.ResetButton | app/src/main/java/com/minyook/overnight/ui/file/UploadActivity.kt:243-247 | The analyze button is enabled with its idle label. |
| Upload.UploadScreen.OnFilePicked | app/src/main/java/com/minyook/overnight/ui/file/UploadActivity.kt:41-47 | A picked file is remembered, the name shown is `FileName` of its `Uri`, and the button is reset; a cancelled pick changes nothing. |
| Upload.UploadScreen.AnalyzeClicked | app/src/main/java/com/minyook/overnight/ui/file/UploadActivity.kt:91-112 | Analysis is refused without a file, folder id and topic id. It is aborted without a user id; otherwise the rubric is read with the button disabled. |
| Upload.UploadScreen.OnCriteriaLoaded | app/src/main/java/com/minyook/overnight/ui/file/UploadActivity.kt:120-160 | An existing topic's criteria are sent with the copied file. A missing topic or a failed read resets the button. |
| Upload.UploadScreen.OnUploadResponse | app/src/main/java/com/minyook/overnight/ui/file/UploadActivity.kt:164-191 | A successful answer opens the progress screen with the job id and all three ids; anything else resets the button. |
| FileList.FileRecords | app/src/main/java/com/minyook/overnight/ui/file/FileListActivity.kt:80-97 | One record per document, in query order, each with its document id. |
| FileList.DateString | app/src/main/java/com/minyook/overnight/ui/file/FileListActivity.kt:106-110 | A missing timestamp shows as "-", any other is formatted. |
| FileList.FileRecordRoundTrip | app/src/main/java/com/minyook/overnight/ui/file/FileListActivity.kt:82-96 | A stored report lists with its topic name, grading date, overall feedback, and the score of its first line (0 without lines). |
| FileList.EmptyDocumentDefaults | app/src/main/java/com/minyook/overnight/ui/file/FileListActivity.kt:82-93 | A document without fields lists as "제목 없음", "-", 0 and "요약 정보 없음". |
| FileList.FileListScreen.constructor | app/src/main/java/com/minyook/overnight/ui/file/FileListActivity.kt:29-40 | Only a folder id in the intent starts a query. |
| FileList.FileListScreen.FetchPresentations | app/src/main/java/com/minyook/overnight/ui/file/FileListActivity.kt:64-71 | The list is cleared and the query for that folder is issued. |
| FileList.FileListScreen.OnPresentationsLoaded | app/src/main/java/com/minyook/overnight/ui/file/FileListActivity.kt:72-103 | On success the list is shown exactly when the result is non-empty and gains one record per document; a failure changes nothing. |
| FileList.OpenFolder | app/src/main/java/com/minyook/overnight/ui/file/FileListActivity.kt:40-98 | Opening a folder and loading its reports lists exactly those reports. |
| SubjectFolder.CreatedAt | app/src/main/java/com/minyook/overnight/ui/file/SubjectFolderActivity.kt:133-138 | A missing `created_at` gives no date. |
| SubjectFolder.FoldersIff | app/src/main/java/com/minyook/overnight/ui/file/SubjectFolderActivity.kt:124-144 | A folder is listed exactly when some document with that record is not marked deleted; the list is never longer than the result. |
| SubjectFolder.NoneDeletedAllListed | app/src/main/java/com/minyook/overnight/ui/file/SubjectFolderActivity.kt:125-143 | With no deleted documents every document is listed, in order. |
| SubjectFolder.SubjectFolderScreen.constructor | app/src/main/java/com/minyook/overnight/ui/file/SubjectFolderActivity.kt:34-41 | The screen starts with empty lists and nothing selected. |
| SubjectFolder.SubjectFolderScreen.FetchFolders | app/src/main/java/com/minyook/overnight/ui/file/SubjectFolderActivity.kt:116-122 | Without a signed-in user nothing is queried; otherwise the user's folders are. |
| SubjectFolder.SubjectFolderScreen.OnFoldersLoaded | app/src/main/java/com/minyook/overnight/ui/file/SubjectFolderActivity.kt:123-154 | On success the list is rebuilt from the non-deleted folders, with a notice when it is empty; a failure changes nothing. |
| SubjectFolder.SubjectFolderScreen.OnFolderFieldTapped | app/src/main/java/com/minyook/overnight/ui/file/SubjectFolderActivity.kt:43-50 | An empty folder list refetches; otherwise the folder sheet opens. |
| SubjectFolder.SubjectFolderScreen.OnFolderPicked | app/src/main/java/com/minyook/overnight/ui/file/SubjectFolderActivity.kt:69-76 | The picked folder becomes the selection, and its files are queried from an empty list. |
| SubjectFolder.SubjectFolderScreen.OnPresentationsLoaded | app/src/main/java/com/minyook/overnight/ui/file/SubjectFolderActivity.kt:161-192 | On success one record per report is appended, with a notice when the list stays empty; a failure changes nothing. |
| SubjectFolder.SubjectFolderScreen.OnFileFieldTapped | app/src/main/java/com/minyook/overnight/ui/file/SubjectFolderActivity.kt:52-60 | The file field asks for a folder first, reports an empty folder, or opens the file sheet, in exactly those three cases. |
| SubjectFolder.PickThenLoad | app/src/main/java/com/minyook/overnight/ui/file/SubjectFolderActivity.kt:69-76 | Picking a folder and loading its reports selects that folder and lists exactly those reports. |
| FolderSelection.NewInstance | app/src/main/java/com/minyook/overnight/ui/mainscrean/FolderSelectionBottomSheet.kt:27-33 | The sheet's arguments hold the user id under "user_uid" and nothing else. |
| FolderSelection.UserUidRoundTrip | app/src/main/java/com/minyook/overnight/ui/mainscrean/FolderSelectionBottomSheet.kt:27-49 | The user id put in by `newInstance` is read back by `onCreate`. |
| FolderSelection.PairsIff | app/src/main/java/com/minyook/overnight/ui/mainscrean/FolderSelectionBottomSheet.kt:88-100 | A (id, name) pair is offered exactly when some folder document that is not marked deleted has it. |
| FolderSelection.DeletedNeverOffered | app/src/main/java/com/minyook/overnight/ui/mainscrean/FolderSelectionBottomSheet.kt:95-99 | A folder marked deleted is never offered. |
| FolderSelection.FolderSelectionSheet.constructor | app/src/main/java/com/minyook/overnight/ui/mainscrean/FolderSelectionBottomSheet.kt:40-50 | The sheet reads its user id from its arguments and starts with nothing loaded. |
| FolderSelection.FolderSelectionSheet.OnViewCreated | app/src/main/java/com/minyook/overnight/ui/mainscrean/FolderSelectionBottomSheet.kt:66-70 | The folders are queried exactly when a user id is known. |
| FolderSelection.FolderSelectionSheet.OnFoldersLoaded | app/src/main/java/com/minyook/overnight/ui/mainscrean/FolderSelectionBottomSheet.kt:81-113 | An empty result gives a notice, a non-empty one offers the non-deleted folders, and a failure changes nothing. |
| FolderSelection.FolderSelectionSheet.OnItemClicked | app/src/main/java/com/minyook/overnight/ui/mainscrean/FolderSelectionBottomSheet.kt:103-106 | A click hands the row's pair to the listener, if there is one, and closes the sheet. |
| FolderSelection.OpenedFromTopicForm | app/src/main/java/com/minyook/overnight/ui/mainscrean/PresentationInfoActivity.kt:55-56 | The topic form opens the sheet without arguments, so the sheet never queries. |
| FolderSelection.OpenedWithUid | app/src/main/java/com/minyook/overnight/ui/mainscrean/FolderSelectionBottomSheet.kt:27-70 | A sheet made with `newInstance(uid)` queries that user's folders. |
| FolderSelection.PickIntoForm | app/src/main/java/com/minyook/overnight/ui/mainscrean/FolderSelectionBottomSheet.kt:103-106 | Picking a row sets the topic form's folder id and name to that row's pair. |
| FolderItem.Child.constructor | app/src/main/java/com/minyook/overnight/ui/folder/FolderItem.kt:19-25 | A new folder is active (not deleted). |
| FolderItem.Group.constructor | app/src/main/java/com/minyook/overnight/ui/folder/FolderItem.kt:11-16 | A group holds the given id, name, expansion and children. |
| FolderItem.FirstNamed | app/src/main/java/com/minyook/overnight/ui/folder/FolderFragment.kt:141 | The index of the first folder with that name, or the length when there is none. |
| FolderItem.EditFirstSpec | app/src/main/java/com/minyook/overnight/ui/folder/FolderFragment.kt:140-147 | Only the first folder of that name in a group is written, whatever its deletion flag; the others keep their place and value. |
| FolderItem.EditEachGroupSpec | app/src/main/java/com/minyook/overnight/ui/folder/FolderFragment.kt:160-168 | An edit of the tree keeps every group's id, name and expansion. It writes one field of at most one folder per group, the first of that name. |
| FolderItem.NoMatchNoChange | app/src/main/java/com/minyook/overnight/ui/folder/FolderFragment.kt:140-153 | With no folder of that name anywhere, the tree is unchanged. |
| FolderItem.RenameKeepsFlags | app/src/main/java/com/minyook/overnight/ui/folder/FolderFragment.kt:141-143 | A rename changes names only; every deletion flag is kept. |
| FolderItem.FlagEditKeepsNames | app/src/main/java/com/minyook/overnight/ui/folder/FolderFragment.kt:161-164 | Moving to the trash or restoring changes flags only; every name is kept. |
| FolderItem.RestoreHitsActiveTwin | app/src/main/java/com/minyook/overnight/ui/folder/TrashNotesFragment.kt:98-100 | Restoring by name can hit an active folder in front of a trashed one of the same name, leaving the trashed one in the trash. |
| FolderItem.WriteEdit | app/src/main/java/com/minyook/overnight/ui/folder/FolderFragment.kt:143 | Writing an edit into a folder object changes that field only. |
| FolderItem.EditGroup | app/src/main/java/com/minyook/overnight/ui/folder/FolderFragment.kt:141-146 | A group's folders change exactly as `EditFirst` says, and the result tells whether one was found. |
| FolderItem.EditTree | app/src/main/java/com/minyook/overnight/ui/folder/FolderFragment.kt:140-147 | The whole tree changes as `EditEachGroup` says, and the result tells whether any group had that name. |
| FolderAdapter.HeadersAreGroups | app/src/main/java/com/minyook/overnight/ui/folder/FolderExpandableAdapter.kt:41-54 | The list shows every group's header once, in group order, and no other headers. |
| FolderAdapter.ActiveRowsIff | app/src/main/java/com/minyook/overnight/ui/folder/FolderExpandableAdapter.kt:49-50 | A folder has a row among its group's rows exactly when it is not deleted. |
| FolderAdapter.ChildRowIff | app/src/main/java/com/minyook/overnight/ui/folder/FolderExpandableAdapter.kt:41-54 | A folder has a row exactly when it is not deleted and its group is expanded and is not the trash. |
| FolderAdapter.CollapsedSection | app/src/main/java/com/minyook/overnight/ui/folder/FolderExpandableAdapter.kt:44-47 | A collapsed group shows its header only. |
| FolderAdapter.FirstDataNamed | app/src/main/java/com/minyook/overnight/ui/folder/FolderExpandableAdapter.kt:71 | The index of the first group with that name, or the length when there is none. |
| FolderAdapter.AddChildSpec | app/src/main/java/com/minyook/overnight/ui/folder/FolderExpandableAdapter.kt:70-82 | With no group of that name nothing changes. Otherwise the first such group gains an active folder in front, whose parent id is the group's id, and every other group is unchanged. |
| FolderAdapter.CalculateDisplayList | app/src/main/java/com/minyook/overnight/ui/folder/FolderExpandableAdapter.kt:41-54 | The list built group by group is `DisplayList` of the tree. |
| FolderAdapter.ExpandableAdapter.constructor | app/src/main/java/com/minyook/overnight/ui/folder/FolderExpandableAdapter.kt:32 | The adapter starts with the rows of the tree it is given, and leaves that tree as it was. |
| FolderAdapter.ExpandableAdapter.NotifyDataChanged | app/src/main/java/com/minyook/overnight/ui/folder/FolderExpandableAdapter.kt:60-65 | The rows are recomputed from the current tree. |
| FolderAdapter.ExpandableAdapter.ItemCount | app/src/main/java/com/minyook/overnight/ui/folder/FolderExpandableAdapter.kt:95 | One item per row. |
| FolderAdapter.ExpandableAdapter.ItemViewType | app/src/main/java/com/minyook/overnight/ui/folder/FolderExpandableAdapter.kt:88-93 | View type 1 exactly for a header row and 2 exactly for a folder row. |
| FolderAdapter.ExpandableAdapter.AddChildToGroup | app/src/main/java/com/minyook/overnight/ui/folder/FolderExpandableAdapter.kt:70-82 | The tree becomes `AddChild` of the old tree, and the rows still match it. The list is refreshed only when the group is expanded; a collapsed group's rows did not change. |
| FolderAdapter.ExpandableAdapter.ToggleGroupExpansion | app/src/main/java/com/minyook/overnight/ui/folder/FolderExpandableAdapter.kt:192-195 | The group's expansion flips and the rows are recomputed. |
| FolderAdapter.PrependChild | app/src/main/java/com/minyook/overnight/ui/folder/FolderExpandableAdapter.kt:74 | The given folder goes in front of the group's folders, and the tree stays well formed. When the group is collapsed, the rows are as before. |
| FolderAdapter.NewChildAt | app/src/main/java/com/minyook/overnight/ui/folder/FolderExpandableAdapter.kt:73-74 | A new active folder, whose parent id is the group's id, goes in front of that group's folders; every other group keeps its view. When the group is collapsed, the rows are as before. |
| FolderAdapter.ToggleTwiceRestores | app/src/main/java/com/minyook/overnight/ui/folder/FolderExpandableAdapter.kt:192-195 | Toggling a group twice restores both its flag and the rows. |
| TrashAdapter.RemoveAt | app/src/main/java/com/minyook/overnight/ui/folder/TrashAdapter.kt:36 | Removing index i keeps every other item in order, and the multiset shrinks by exactly that item. |
| TrashAdapter.TrashListAdapter.constructor | app/src/main/java/com/minyook/overnight/ui/folder/TrashAdapter.kt:14-17 | The trash list holds the given folders. |
| TrashAdapter.TrashListAdapter.ItemCount | app/src/main/java/com/minyook/overnight/ui/folder/TrashAdapter.kt:19 | One item per trashed folder. |
| TrashAdapter.TrashListAdapter.RemoveItem | app/src/main/java/com/minyook/overnight/ui/folder/TrashAdapter.kt:33-39 | The first item with that name leaves the list and the rest keep their order; with none the list is unchanged. |
| TrashNotes.TrashedView | app/src/main/java/com/minyook/overnight/ui/folder/TrashNotesFragment.kt:73-76 | The folder objects on the trash list are exactly the deleted folders of the tree, group by group. |
| TrashNotes.TrashedIff | app/src/main/java/com/minyook/overnight/ui/folder/TrashNotesFragment.kt:74-76 | A folder is on the trash list exactly when it is deleted and some group holds it. |
| TrashNotes.NothingDeletedEmptyTrash | app/src/main/java/com/minyook/overnight/ui/folder/TrashNotesFragment.kt:74-80 | With no deleted folder the trash list is empty. |
| TrashNotes.DeletedFolderIsTrashed | app/src/main/java/com/minyook/overnight/ui/folder/FolderFragment.kt:160-168 | After a move to the trash, the folder that was hit is on the trash list under its name. |
| TrashNotes.RestoredFolderIsActive | app/src/main/java/com/minyook/overnight/ui/folder/TrashNotesFragment.kt:96-100 | After a restore, the first folder of that name in each group that has one is active and keeps its name. |
| TrashNotes.TrashScreen.constructor | app/src/main/java/com/minyook/overnight/ui/folder/TrashNotesFragment.kt:29-47 | The trash screen holds the very group objects it was given, with no list shown yet. |
| TrashNotes.TrashScreen.DisplayTrashItems | app/src/main/java/com/minyook/overnight/ui/folder/TrashNotesFragment.kt:73-94 | The empty view is shown exactly when no folder is deleted; otherwise a new list holds the deleted folders. |
| TrashNotes.TrashScreen.OnRestore | app/src/main/java/com/minyook/overnight/ui/folder/TrashNotesFragment.kt:96-104 | The tree changes as a restore by name, and the first trash entry of that name leaves the list. |
| FolderFragment.InitialDataShape | app/src/main/java/com/minyook/overnight/ui/folder/FolderFragment.kt:35-54 | The start tree is the expanded "전체 노트" group with five active folders pointing back to it, then the empty, collapsed trash group. The trash list is empty. |
| FolderFragment.NewInitialChildren | app/src/main/java/com/minyook/overnight/ui/folder/FolderFragment.kt:37-43 | The five starting folders are distinct objects with the starting names. |
| FolderFragment.GetInitialData | app/src/main/java/com/minyook/overnight/ui/folder/FolderFragment.kt:35-54 | The starting groups form a well-formed tree whose snapshot is the initial data. |
| FolderFragment.CreateScreen | app/src/main/java/com/minyook/overnight/ui/folder/FolderFragment.kt:64-87 | The first view builds the starting tree: the expanded "전체 노트" group with its five active folders, then the empty trash group. It also builds a list adapter whose rows match that tree. |
| FolderFragment.FolderScreen.constructor | app/src/main/java/com/minyook/overnight/ui/folder/FolderFragment.kt:27-31 | The screen holds the tree and an adapter over that same tree, and building it leaves the tree as it was. |
| FolderFragment.FolderScreen.OnViewCreated | app/src/main/java/com/minyook/overnight/ui/folder/FolderFragment.kt:64-93 | A new view gets a new adapter over the same tree, whose rows are the tree's rows even when the tree changed behind the old list; the tree is unchanged. |
| FolderFragment.FolderScreen.OnResume | app/src/main/java/com/minyook/overnight/ui/folder/FolderFragment.kt:95-102 | Coming back recomputes the rows from the tree, even when another screen changed the shared folders; the tree is unchanged. |
| FolderFragment.FolderScreen.RestoreThenResume | app/src/main/java/com/minyook/overnight/ui/folder/FolderFragment.kt:95-101 | A restore on the trash screen, which shares the folder objects, followed by `onResume` leaves the tree restored by name and the rows up to date. |
| FolderFragment.FolderScreen.OnFolderRenamed | app/src/main/java/com/minyook/overnight/ui/folder/FolderFragment.kt:136-154 | The first folder of that name in every group is renamed. The result is true exactly when some group had one, and otherwise the rows are untouched. |
| FolderFragment.FolderScreen.DeleteFolderByTitle | app/src/main/java/com/minyook/overnight/ui/folder/FolderFragment.kt:156-175 | The first folder of that name in every group is marked deleted and stays in its group. The result is true exactly when some group had one, and otherwise the rows are untouched. |
| FolderFragment.FolderScreen.OnChildCreated | app/src/main/java/com/minyook/overnight/ui/folder/FolderFragment.kt:263-266 | A created folder is added to the tree as `AddChild` says. |
| FolderFragment.FolderScreen.NavigateToTrashList | app/src/main/java/com/minyook/overnight/ui/folder/FolderFragment.kt:104-116 | The trash screen receives the same group objects, not copies. |
| AddChildDialog.NewInstance | app/src/main/java/com/minyook/overnight/ui/folder/AddChildDialogFragment.kt:31-37 | The dialog's arguments hold the group name under "group_name" only. |
| AddChildDialog.ParentGroupNameRoundTrip | app/src/main/java/com/minyook/overnight/ui/folder/AddChildDialogFragment.kt:31-43 | The group name put in by `newInstance` is read back by `onCreate`. |
| AddChildDialog.OnSave | app/src/main/java/com/minyook/overnight/ui/folder/AddChildDialogFragment.kt:66-82 | A blank name is refused. A folder is created exactly when the name is not blank and there are a listener and a group name. The created name is the trimmed input, non-empty, without whitespace at either end. |
| AddChildDialog.CreatedNameIsStable | app/src/main/java/com/minyook/overnight/ui/folder/AddChildDialogFragment.kt:67-77 | Entering the created name again gives the same folder name. |
| AddChildDialog.OpenedDialogCreates | app/src/main/java/com/minyook/overnight/ui/folder/AddChildDialogFragment.kt:31-82 | A dialog opened for a group, with a listener and a non-blank name, creates that folder in that group. |
| RenameFolderDialog.NewInstance | app/src/main/java/com/minyook/overnight/ui/folder/RenameFolderDialogFragment.kt:31-37 | The dialog's arguments hold the current name under "current_name" only. |
| RenameFolderDialog.CurrentFolderNameRoundTrip | app/src/main/java/com/minyook/overnight/ui/folder/RenameFolderDialogFragment.kt:31-43 | The name put in by `newInstance` is read back by `onCreate`. |
| RenameFolderDialog.Prefill | app/src/main/java/com/minyook/overnight/ui/folder/RenameFolderDialogFragment.kt:57 | The input starts with the current name, or empty without one. |
| RenameFolderDialog.OnRename | app/src/main/java/com/minyook/overnight/ui/folder/RenameFolderDialogFragment.kt:62-75 | A blank name or the current name is refused. A rename is sent exactly when the trimmed name is new and there are a listener and a current name. The new name is non-empty and differs from the old one. |
| RenameFolderDialog.UntouchedPrefillIsRefused | app/src/main/java/com/minyook/overnight/ui/folder/RenameFolderDialogFragment.kt:57-68 | Confirming the prefilled name unchanged renames nothing. |
| RenameFolderDialog.RenameBack | app/src/main/java/com/minyook/overnight/ui/folder/RenameFolderDialogFragment.kt:62-74 | Renaming to a new name and then back gives the original name again. |
| SignUp.Validate | app/src/main/java/com/minyook/overnight/ui/FirstScrean/SignUpFragment.kt:89-105 | The form is refused for a missing field exactly when email, password or name is blank, and for the password exactly when the trimmed password is shorter than 6. An accepted form carries the trimmed values. |
| SignUp.AcceptedIsStable | app/src/main/java/com/minyook/overnight/ui/FirstScrean/SignUpFragment.kt:89-105 | Submitting the accepted values again is accepted with the same values. |
| SignUp.BirthDateSpec | app/src/main/java/com/minyook/overnight/ui/FirstScrean/SignUpFragment.kt:195 | The picked date is 10 characters: two-digit day, '/', two-digit month counted from 1, '/', four-digit year, each reading back as the picked number. |
| SignUp.PickedDateIsKept | app/src/main/java/com/minyook/overnight/ui/FirstScrean/SignUpFragment.kt:93-195 | Trimming the picked date at submit leaves it unchanged. |
| SignUp.UserRecord | app/src/main/java/com/minyook/overnight/ui/FirstScrean/SignUpFragment.kt:145-151 | The stored user record has exactly the keys name, email, phone, birth and user_docid. |
| SignUp.UserRecordRoundTrip | app/src/main/java/com/minyook/overnight/ui/FirstScrean/SignUpFragment.kt:145-155 | Every field reads back as written, and no password is stored. |
| SignUp.SignUpScreen.constructor | app/src/main/java/com/minyook/overnight/ui/FirstScrean/SignUpFragment.kt:74-76 | The submit button starts enabled, with nothing pending or written. |
| SignUp.SignUpScreen.OnSubmitClicked | app/src/main/java/com/minyook/overnight/ui/FirstScrean/SignUpFragment.kt:87-112 | A disabled button does nothing. A refused form shows its message. An accepted one disables the button and starts account creation. |
| SignUp.SignUpScreen.OnAccountCreated | app/src/main/java/com/minyook/overnight/ui/FirstScrean/SignUpFragment.kt:113-155 | The button is enabled again. A created account gets its user record written under its uid; a failure writes nothing. |
| SignUp.NoDoubleSubmit | app/src/main/java/com/minyook/overnight/ui/FirstScrean/SignUpFragment.kt:108-112 | A second press while the account is being created changes nothing. |
| Onboarding.StateFor | app/src/main/java/com/minyook/overnight/ui/FirstScrean/OnboardingActivity.kt:62-72 | The button reads "시작하기" exactly on the last page, and skip is visible exactly on the other pages. |
| Onboarding.OnboardingScreen.constructor | app/src/main/java/com/minyook/overnight/ui/FirstScrean/OnboardingActivity.kt:27-58 | The pager opens on the first page with "다음" and skip visible. |
| Onboarding.OnboardingScreen.OnPageSelected | app/src/main/java/com/minyook/overnight/ui/FirstScrean/OnboardingActivity.kt:35-40 | The buttons follow the selected page. |
| Onboarding.OnboardingScreen.OnNextStartClicked | app/src/main/java/com/minyook/overnight/ui/FirstScrean/OnboardingActivity.kt:48-56 | Before the last page the button moves one page on; on the last it goes to sign-in. |
| Onboarding.OnboardingScreen.OnSkipClicked | app/src/main/java/com/minyook/overnight/ui/FirstScrean/OnboardingActivity.kt:43-45 | Skip goes to sign-in from any page. |
| Onboarding.ThreePressesFinish | app/src/main/java/com/minyook/overnight/ui/FirstScrean/OnboardingAdapter.kt:9-24 | With the three pages, three presses of the button reach sign-in from the last page. |
| Text.TrimEmptyIff | app/src/main/java/com/minyook/overnight/ui/folder/AddChildDialogFragment.kt:67-69 | `trim()` gives the empty string exactly for an all-whitespace input. |
| Text.TrimIdempotent | app/src/main/java/com/minyook/overnight/ui/FirstScrean/SignUpFragment.kt:89-93 | Trimming twice is the same as trimming once. |
| Text.ToIntOrNullOfToString | app/src/main/java/com/minyook/overnight/ui/mainscrean/PresentationInfoActivity.kt:160 | `toIntOrNull` reads back every 32-bit integer written in decimal. |
| Text.ToIntOrNullRejects | app/src/main/java/com/minyook/overnight/ui/mainscrean/PresentationInfoActivity.kt:160 | Text starting with anything but a sign or a digit does not parse. |
| Text.LastIndexOf | app/src/main/java/com/minyook/overnight/ui/file/UploadActivity.kt:227 | The index of the last occurrence of the character, or -1 when it does not occur. |
| Text.ZeroPadSpec | app/src/main/java/com/minyook/overnight/ui/FirstScrean/SignUpFragment.kt:195 | `%0Nd` of a number below 10^N is N digits that read back as the number. |
| Text.SortStrings | app/src/main/java/com/minyook/overnight/ui/file/AnalysisResultActivity.kt:205 | `sorted()` of a set is strictly increasing and holds exactly the set's members. |
| Text.SortedUnique | app/src/main/java/com/minyook/overnight/ui/file/AnalysisResultActivity.kt:205 | Two strictly increasing lists with the same members are equal, so `sorted()` of a set has one possible result, and the columns of `BuildColumns` and `BuildSheet` are fixed by the documents. |
| Text.ContainsIff | app/src/main/java/com/minyook/overnight/ui/file/AnalysisProgressActivity.kt:149 | `contains` holds exactly when the second string occurs at some index of the first. |
| Text.ReplaceSpaces | app/src/main/java/com/minyook/overnight/ui/file/AnalysisResultActivity.kt:235-236 | `replace(" ", "_")` keeps the length, turns each space into '_' and keeps every other character. |
| Int32.Wrap | app/src/main/java/com/minyook/overnight/ui/file/FileListActivity.kt:91 | `Long.toInt()` keeps the value modulo 2^32, and keeps it unchanged when it fits. |
| Int32.WrappingSumIsWrappedSum | app/src/main/java/com/minyook/overnight/ui/mainscrean/PresentationInfoActivity.kt:161 | Adding up `Int`s one at a time gives the exact sum wrapped to 32 bits. |
| Firestore.MapListRoundTrip | app/src/main/java/com/minyook/overnight/ui/file/UploadActivity.kt:122 | A stored list of maps is read back unchanged. |
| Firestore.FolderDeleted | app/src/main/java/com/minyook/overnight/ui/file/SubjectFolderActivity.kt:128 | A folder counts as deleted exactly when its `isDeleted` field is `true`; a missing field means not deleted. |

## Left out

- Network, Firestore and the analysis service are not called. Each asynchronous answer is a parameter of the method that handles it (`Fetch`, `UploadOutcome`, the poll answers).
- Toasts, layouts, view visibility other than the flags kept, alpha values, window insets and navigation transactions are left out. Intents are kept as the extras they carry.
- Time is left out. The handler's 1 s and 2 s delays are kept as numbers on the queue of pending polls, but time does not pass.
- Ids, the clock and the date picker's current date are inputs: generated UUIDs, document ids, `System.currentTimeMillis`, `Timestamp.now()`.
- Date formatting is the parameter `format`: `SimpleDateFormat("yyyy.MM.dd")` depends on time zone and locale.
- Files are left out. Copying the picked video to the cache is an optional file name, and PDF and XLSX bytes are not produced; only their contents and file names are modelled.
- Firestore doubles are left out: numbers are whole numbers (`Long`).
- Firestore getters on a field of another type throw in the app. The model reads such a field as absent. This affects, among others, `created_at` in the subject folder list.
- An unchecked cast of a stored list whose items are not maps would throw later. The model reads such a list as absent.
- Characters are code points. `Text.IsWhitespace` lists the whitespace of `Char.isWhitespace`. `toIntOrNull` accepts ASCII digits only, while Kotlin also accepts other Unicode decimal digits. String order is code-point order; UTF-16 surrogate order is not modelled.
- SignUp.Validate: the 6-character password minimum counts code points, not UTF-16 units.
- The `trashAdapter` property is `lateinit`, so restoring before a non-empty trash list was shown throws. `TrashNotes.TrashScreen.OnRestore` requires the adapter instead.
- `FolderData.kt` and the other data classes without logic are not part of this model.
- Screens whose logic is only navigation or Firebase sign-in are not part of this model: login, splash, find-password, the main activity, the wave animation and the option bottom sheets.
- The paths do not match. The progress screen writes reports under `topics/.../presentations`, while the lists query the top-level `presentations` collection by `contentId`. The topic form's folder ids come from `user/{uid}/folders`, but it writes topics to `contents/{selectedFolderId}/topics`, while the upload screen reads its rubric from `user/{userId}/folders/{contentId}/topics/{topicId}`. The model keeps each screen's own path and does not connect them.
- The intent keys do not match either. The topic form starts the upload screen with `contentId` and `topicId`, but the upload screen reads `folderId` and `userId`, so from there its analyze button is always refused. Each screen is modelled with the keys it reads and writes.
- The spreadsheet and PDF exports' write failures (the `try`/`catch` with the "엑셀 저장 실패" and "PDF 저장 실패" toasts) and the missing-font fallback are left out, because no file is written: `SaveExcel`, `OnComparisonLoaded` and `SavePdf` describe only what would be written.
- The rename dialog's AlertDialog closes on its positive button even when the name is refused. The model reports the refusal only.
- The date picker's maximum date (today) is a picker setting; the model formats any picked date.
- The folder sheet opened from the topic form is built without arguments, so it never queries. This is modelled (`FolderSelection.OpenedFromTopicForm`), not corrected.

## Findings

| source | as written | input that shows it | evidently intended | confidence | as-written member | corrected member |
|---|---|---|---|---|---|---|
| app/src/main/java/com/minyook/overnight/ui/mainscrean/PresentationInfoActivity.kt:160-174 | The points are added into a 32-bit `Int`, and the total is checked with `totalScore != 100`, so an overflowing sum can pass. | points "2147483647", "2147483647", "102" (sum 4294967396) | accept only point lists whose exact sum is 100 | not executed | PresentationInfo.OverflowPassesAsWritten | PresentationInfo.SubmitIff |
