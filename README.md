# MyCourses bulk downloader — a Dafny model of its bookkeeping

`main.py` lets a user pick courses from a fixed catalog, then drives a browser
to download every file of every catalog course (see "## Findings") from the
McGill myCourses (Brightspace) site, waits for the downloads to finish and zips
them into the user's downloads folder. Most of it is browser automation and UI. This project models the
deterministic part and proves what it promises:

- **Selection tracker** (`courses.dfy`, module `Courses`). The catalog is a
  `map<int, map<string, seq<string>>>` (course id → folder name → file ids),
  with the catalog the program ships as `CourseList`. The global
  `selected_courses` set is the field `selected` of the class
  `SelectionTracker`, whose `Toggle` method is `toggle_selection`.
  `total_content_for_course` and `total_selected_content` are specified by
  the functions `CourseTotal` and `SelectedTotal` and computed by the loops
  `CountCourse` and `CountSelected`. Python's `sum` over a dictionary's values
  or over a set follows no order the program relies on. The generic folds in
  `sums.dfy` (module `Sums`) pick keys in any order, and lemmas show the order
  does not matter.
- **Labels** (`labels.dfy`, module `Labels`): the status line and the button
  text written by `update_status`, the whole of `toggle_selection` (the set
  change followed by the label refresh), and the "n file(s)" badge on each
  card.
- **Download loop** (`downloads.dfy`, module `Downloads`): the three nested
  loops that navigate to one direct-download URL per file id. Its observable
  effect is modelled as the sequence of URLs visited.
- **Archive step** (`archive.dfy`, module `Archive`): the wait for partial
  downloads (`.crdownload`, `.tmp`) to disappear, and the search for an archive
  name that overwrites nothing.
- `text.dfy` (module `Text`) holds Python's `str(n)`, the parsers that invert
  it, and the prefix/suffix tests the contracts use. `wrappers.dfy` holds
  `Option`.

The download button announces `total_selected_content()` files (main.py:65),
but the download loop (main.py:106) walks `course_list`, the whole catalog,
whatever is selected. The model follows the code and records the difference
under "## Findings".

## Model

| member | source | states |
|---|---|---|
| `Courses.CourseTotal` | main.py:50-52 | a course's total is the sum of its folder-list lengths over its folders in any order (`SumValues` of `FolderSizes`); every folder's length is part of it, and it is 0 exactly when all folders are empty |
| `Courses.SelectedTotal` | main.py:55-56 | the sum of `CourseTotal` over exactly the selected ids, in any order; its behaviour is pinned down by the Empty, Insert, Remove and Monotone lemmas |
| `Courses.ShippedCatalogTotals` | main.py:21-37 | on the shipped catalog the totals are 4 for course 779615, 2 for 762082 and 6 with both selected |
| `Courses.SelectedTotalEmpty` | main.py:55-56 | with nothing selected the selected total is 0 |
| `Courses.SelectedTotalInsert` | main.py:55-56 | selecting one more course adds exactly that course's total |
| `Courses.SelectedTotalRemove` | main.py:55-56 | unselecting a course subtracts exactly that course's total |
| `Courses.SelectedTotalMonotone` | main.py:55-56 | a larger selection never has a smaller total |
| `Courses.CountCourse` | main.py:50-52 | adding up the folder lengths one folder at a time yields exactly `CourseTotal` |
| `Courses.CountSelected` | main.py:55-56 | adding up the course totals one selected course at a time yields exactly `SelectedTotal` |
| `Courses.Toggled` | main.py:68-78 | the toggled id's membership flips, and every other id's membership is unchanged |
| `Courses.ToggleTwice` | main.py:68-78 | toggling the same id twice gives back the original set |
| `Courses.ToggledTotal` | main.py:68-78 | after a toggle the total moves by exactly that course's total: up when added, down when removed |
| `Courses.SelectionTracker.constructor` | main.py:44 | the program starts with an empty selection whose total is 0 |
| `Courses.SelectionTracker.Toggle` | main.py:68-78 | the new selection is the toggled old one, stays inside the catalog, and the total moves by ± the course's total |
| `Courses.ClickTwice` | main.py:68-79 | two clicks on one card restore both the selection and the total |
| `Labels.JoinIdsRoundTrip` | main.py:60 | the `", "`-joined id list reads back, by `SplitIds`, as exactly the ids it was built from, in order |
| `Labels.IdsText` | main.py:60 | the id part of the status line is "None" exactly when the selection is empty, and otherwise reads back as the selected ids |
| `Labels.StatusText` | main.py:59-64 | the status line starts "Selected courses: ", ends with the total, shows "None" exactly when nothing is selected, and otherwise holds the selected ids, which read back |
| `Labels.ButtonLabel` | main.py:65 | the button reads `Download <n> file(s)` and the number in it reads back as n |
| `Labels.UpdateStatus` | main.py:59-65 | the button announces exactly the selection's total, the status line ends with that total and shows "None" exactly when nothing is selected |
| `Labels.ToggleSelection` | main.py:68-79 | a click flips the course's membership, and the refreshed button announces the new selection's total |
| `Labels.ShippedCatalogButton` | main.py:65 | with both shipped courses selected the button reads "Download 6 file(s)" |
| `Labels.Badge` | main.py:168 | the badge ends " file" exactly for a count of 1 and " files" otherwise, and its number reads back as the count |
| `Text.NatToString` | main.py:120 | decimal text of a count is non-empty, all digits, and has no leading zero |
| `Text.NatToStringRoundTrip` | main.py:120 | decimal text parses back to the number it renders |
| `Text.IntToStringRoundTrip` | main.py:109 | a course id's text parses back to the id |
| `Downloads.DownloadUrl` | main.py:109 | each URL starts with the myCourses content prefix and ends with `/DirectFileTopicDownload` |
| `Downloads.DownloadUrlRoundTrip` | main.py:109 | the course id and file id can be read back out of their URL |
| `Downloads.DownloadUrlInjective` | main.py:109 | different (course, file) pairs get different URLs |
| `Downloads.FolderUrls` | main.py:108-109 | a folder yields as many URLs as it has file ids |
| `Downloads.FolderUrlsAt` | main.py:108-109 | the i-th URL of a folder is the URL of its i-th file id |
| `Downloads.CatalogUrls` | main.py:106-109 | the URLs of a set of courses: the multiset union of each course's folder URLs, taken in any course order (`BagUnion`, order-free by `BagUnionRemove`) |
| `Downloads.DownloadFolder` | main.py:108-110 | the innermost loop visits the folder's URLs in the folder's order |
| `Downloads.DownloadCourse` | main.py:107-110 | the middle loop visits exactly the URLs of all of the course's folders, each once |
| `Downloads.DownloadCourses` | main.py:106-110 | the outer loop visits exactly one URL per file id of the courses it walks, and as many URLs as their counts sum to |
| `Downloads.CourseUrlsCount` | main.py:106-109 | a course yields exactly as many URLs as `total_content_for_course` counts |
| `Downloads.CatalogUrlsCount` | main.py:106-109 | a set of courses yields exactly as many URLs as their totals sum to |
| `Downloads.DownloadFiles` | main.py:106-110 | `download_files` visits one URL per file id of every catalog course, whatever is selected |
| `Downloads.DownloadSelected` | main.py:65 | the corrected loop visits exactly the selected courses' URLs, as many as the button announces |
| `Downloads.DownloadIgnoresSelection` | main.py:106-109 | with only course 762082 selected, the button counts 2 files but the loop visits 6 URLs |
| `Downloads.DownloadCoversSelection` | main.py:106-109 | the loop never visits fewer URLs than the selection counts |
| `Archive.InProgress` | main.py:112 | a name is a partial download exactly when it ends in `.crdownload` or `.tmp` |
| `Archive.PartialNamesInProgress` | main.py:112 | any file's `.crdownload` or `.tmp` name holds the wait up |
| `Archive.AnyInProgress` | main.py:112 | the poll goes on exactly when some listed name ends in `.crdownload` or `.tmp` |
| `Archive.Settled` | main.py:112 | a listing has settled exactly when none of its names is a partial download |
| `Archive.ArchivePath` | main.py:116-120 | candidate 0 is `<folder>/combined_files.zip` and candidate k > 0 is `<folder>/combined_files (k).zip` |
| `Archive.ArchivePathRoundTrip` | main.py:116-120 | the k-th candidate archive name reads back as k |
| `Archive.ArchivePathsDistinct` | main.py:116-120 | the candidate names `combined_files.zip`, `combined_files (k).zip` are pairwise different |
| `Archive.FirstFreeUnique` | main.py:116-121 | at most one candidate is free with every earlier one taken |
| `Archive.SecondRunName` | main.py:116-121 | with `combined_files.zip` present and `combined_files (1).zip` absent, the name chosen is `combined_files (1).zip` |
| `Archive.PickArchivePath` | main.py:116-121 | the loop terminates, its name is not an existing file, and every earlier candidate is one |
| `Archive.ArchiveWhenSettled` | main.py:112-126 | the zip is written only after a listing with no partial download, holds that listing, and never overwrites an existing file |
| `Sums.SumValuesRemove` | main.py:52 | a sum over a dictionary does not depend on the order its keys are visited |

## Findings

| source | as written | input that shows it | evidently intended | confidence | as-written member | corrected member |
|---|---|---|---|---|---|---|
| main.py:106-109 | the download loop walks every course of `course_list` and never reads `selected_courses` | shipped catalog with only 762082 selected: the button reads "Download 2 file(s)" (main.py:65), yet 6 URLs are visited | download only the selected courses, the number the button announces | medium, not executed | `Downloads.DownloadFiles` with `Downloads.DownloadIgnoresSelection` | `Downloads.DownloadSelected` |

## Left out

- The browser session: driver setup, navigating to the login page, the sign-in click and the 20-second wait for the course list (main.py:84-104). These are calls into Selenium. Each navigation is modelled only by the URL it visits.
- The UI: header, cards, CSS highlight changes and event wiring (main.py:73, 78, 146-185). Only the set change in `toggle_selection` and the label strings are modelled.
- Filesystem effects: creating the temporary directory, `os.listdir`, `os.path.isfile`, writing the zip and removing the directory (main.py:82-83, 112, 119, 123-128). A listing is a sequence of names, the downloads folder a set of paths, and the zip a `Zip` value of path and member names. Whether the temporary directory is gone afterwards is not modelled.
- The sleeping poll (main.py:112-113). Its progress over time is the sequence of listings the polls would see. When none of them has settled the model returns `None`, where the program would keep waiting forever.
- `get_downloads_folder` (main.py:132-140) depends on the platform and the environment. The folder is a string parameter, and the error for an unsupported system is not modelled.
- The order of ids in the status line (main.py:60). Python set order is unspecified, so the order is a parameter that lists each selected id once.
- The order of courses and folders in the download loop. The model visits dictionary keys in any order and states the URLs visited as a multiset; within a folder the order is kept.
- `config.driverPath`, `print` output, course names and thumbnail URLs are configuration or display only.
- Python's `sum` is modelled by the loops `CountCourse` and `CountSelected`; the functions `CourseTotal` and `SelectedTotal` they are proved against are ghost (specification only).
- Courses.SelectionTracker.Toggle: requires the id to be a catalog key. The source would add an unknown id and then fail with a `KeyError` in `update_status`, but every card is built from a catalog key (main.py:155, 173), so no click can do that.
- Labels.ToggleSelection: carries the same catalog-key requirement as `Toggle`, for the same reason.
- Archive.ArchiveWhenSettled: zips the listing that ended the wait. The source lists the directory again when zipping (main.py:124), and the model takes that listing to be the same.
