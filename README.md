# InfiniteSight image loading, modelled in Dafny

InfiniteSight is a Qt image viewer. When the user opens a file or drops
one on the window, `MainWindow::loadImage` starts an `ImageLoader` worker
on its own `QThread`. The worker reports progress, then either the decoded
pixmap or an error text. The window's slots (`onLoadProgress`,
`onImageLoaded`, `onLoadError`) update the status label, the progress bar
and the viewer.

This project models two parts of that:

- `loading.dfy` (module `Loading`): one worker run,
  `ImageLoader::loadImage`. It is a pure function from the loader (its
  file path) and the decode outcome to the ordered list of notifications
  the run emits. `WellFormedTrace` states the protocol every run keeps:
  strictly increasing progress values in 0..100, then exactly one
  terminal event, which comes last.
- `window.dfy` (module `Window`): what the interaction thread does with a
  request and with each notification. `WindowState` holds the fields
  involved:
  - `currentImagePath`;
  - the worker slot, where the thread and loader pointers are collapsed
    into the path the running worker was built with;
  - the status text;
  - the progress bar's visibility and value;
  - the path whose image is on screen.

  Each slot or handler is a pure step function (`AfterLoadImage`,
  `AfterImageLoaded`, ...). `Consistent` is the invariant all of them
  keep: while a worker runs, it belongs to the latest request, the bar is
  shown and the label reads `Loading: <file name>`. The class
  `MainWindow` has the same fields and one method per slot or handler.
  Each method is proved to leave exactly the state its step function
  gives. `DropEvent` keeps the source's loop; its early `break` becomes
  a `return`, since what follows the loop in the source (accepting the
  drop action) does not touch the window state.
- `window_properties.dfy` (module `WindowProperties`): properties of
  whole runs. `Run` folds `Step` over any sequence of inputs (open,
  drop, notification, close), so worker notifications can come in any
  order and interleave with new requests.
- `paths.dfy` (module `Paths`): `QFileInfo::fileName()`,
  `QFileInfo::suffix()`, ASCII `toLower()` and the drop handler's
  extension filter.

Freshness follows the code. `onImageLoaded` compares the notification's
path with `currentImagePath`, and it is the only slot that checks
anything. `onLoadProgress` and `onLoadError` apply whatever they
receive. So:

- A superseded run's success is ignored, but its progress still moves
  the bar, and its failure replaces the label and drops the new request's
  worker (`SupersededRun`).
- A run for the same path as the latest request is accepted even if it
  was started by an earlier request (`RepeatedPathAcceptsEarlierRun`).

A design built on per-request sequence numbers, with every notification
filtered, would rule out both. The model follows the code instead.

The progress bar's range is set to 0..100 at MainWindow.cpp:30. A fresh
`QProgressBar` holds the value -1, and `setValue` ignores values outside
the range; the model writes out both facts (`NoProgress`,
`SetProgressValue`).

## Model

| member | source | states |
|---|---|---|
| `Paths.FileNameIsLastComponent` | MainWindow.cpp:97 | `fileName()` is the longest tail of the path that has no `/`: it is all of the path, or it follows a `/` |
| `Paths.SuffixIsDotFreeTail` | MainWindow.cpp:222-224 | `suffix()` is a tail of the file name that contains no `.`, and it is empty when the file name has no `.` |
| `Paths.SuffixFollowsLastDot` | MainWindow.cpp:222-224 | when the file name has a `.`, the suffix starts right after a `.` that is at or after every `.` in the name, so after the last one |
| `Paths.ToLowerAsciiAt` | MainWindow.cpp:224 | `toLower()` maps each ASCII capital to its small letter and keeps every other character; no capital remains |
| `Paths.LastIndexOf` | MainWindow.cpp:222-224 | the position of the last given character, or -1; no later position holds it (the search behind `fileName()` and `suffix()`) |
| `Paths.FirstImageIndex` | MainWindow.cpp:220-231 | the first dropped path whose lower-cased suffix is one of png, jpg, jpeg, bmp, gif, tiff, tif, webp: it matches, every earlier path does not, and there is none exactly when no path matches |
| `Paths.UpperCaseExtensionAccepted` | MainWindow.cpp:224-227 | `/img/cat.PNG` has file name `cat.PNG` and passes the filter, because the suffix is lower-cased before the comparison |
| `Paths.SuffixComesFromFileName` | MainWindow.cpp:222-224 | a `.png` inside a directory name is not a suffix: `/photos.png/notes` has no suffix and is rejected |
| `Paths.SuffixIsLastExtensionOnly` | MainWindow.cpp:224-227 | only the text after the last `.` counts: `b.png.txt` has suffix `txt` and is rejected |
| `Loading.FailureMessage` | ImageLoader.cpp:28 | the error text is the fixed prefix `Failed to load image: ` followed by the path itself |
| `Loading.LoadImage` | ImageLoader.cpp:6-34 | every run is well formed (strictly increasing progress in 0..100, then exactly one terminal event, last); it starts 10, 30, 70; it has length 5 on success and 4 on failure; it ends with `Loaded` of the path given at construction exactly when the decode succeeded, and with the failure text otherwise; `Progress(100)` occurs exactly on success; every `Loaded` carries the constructor's path |
| `Loading.LoadImageShapes` | ImageLoader.cpp:14-33 | the success run is `[10, 30, 70, 100, Loaded(path)]` and the failure run is `[10, 30, 70, Error("Failed to load image: " + path)]` |
| `Loading.ExactlyOneTerminal` | ImageLoader.cpp:27-33 | in a well-formed trace, a terminal event can only be the last one |
| `Loading.OutcomeExclusive` | ImageLoader.cpp:27-33 | a run contains a `Loaded` exactly when the decode succeeded, and an `Error` exactly when it failed |
| `Window.AfterLoadImage` | MainWindow.cpp:94-132 | a request sets the current path, shows the bar at 0, labels `Loading: <file name>`, puts a worker for that path in the slot in place of any previous one, keeps the image on screen, and leaves a consistent window from any state |
| `Window.AfterImageLoaded` | MainWindow.cpp:134-152 | a success whose path differs from the current path changes nothing; one whose path matches shows that image, labels `Loaded: <file name>`, hides the bar, empties the slot and keeps the request and the bar's value; consistency is kept |
| `Window.AfterLoadProgress` | MainWindow.cpp:154-157 | only the bar's value changes: it becomes the reported percentage when that is within 0..100, and otherwise nothing changes; there is no freshness check; consistency is kept |
| `Window.AfterLoadError` | MainWindow.cpp:159-171 | with no path check, the label becomes the message, the bar is hidden and the slot emptied; the request, the image on screen and the bar's value are kept; consistency is kept |
| `Window.AfterTeardown` | MainWindow.cpp:37-43 | a running worker is stopped and nothing else changes; consistency is kept |
| `Window.AfterOpenImage` | MainWindow.cpp:89-91 | an empty answer from the dialog changes nothing; a non-empty one is a request for that path |
| `Window.DropLoadsFirstImage` | MainWindow.cpp:220-231 | a drop is a request for the first path that passes the extension filter, and for no other path |
| `Window.DropWithoutImageIgnored` | MainWindow.cpp:217-232 | a drop where no path passes the filter changes nothing |
| `Window.MainWindow.constructor` | MainWindow.cpp:8-31 | a new window labels `Ready`, hides the bar at its fresh value, has no worker, no current path and no image, and is consistent |
| `Window.MainWindow.LoadImage` | MainWindow.cpp:94-132 | leaves the state `AfterLoadImage` gives and keeps the invariant |
| `Window.MainWindow.OpenImage` | MainWindow.cpp:80-92 | leaves the state `AfterOpenImage` gives, calling `LoadImage` only for a non-empty answer |
| `Window.MainWindow.OnImageLoaded` | MainWindow.cpp:134-152 | leaves the state `AfterImageLoaded` gives, returning early on a path mismatch |
| `Window.MainWindow.OnLoadProgress` | MainWindow.cpp:154-157 | leaves the state `AfterLoadProgress` gives |
| `Window.MainWindow.OnLoadError` | MainWindow.cpp:159-171 | leaves the state `AfterLoadError` gives |
| `Window.MainWindow.Teardown` | MainWindow.cpp:37-43 | leaves the state `AfterTeardown` gives |
| `Window.MainWindow.DropEvent` | MainWindow.cpp:213-235 | the loop stops at the first path that passes the filter and makes a request for it, and changes nothing when none passes (the state `AfterDrop` gives) |
| `WindowProperties.RunKeepsConsistent` | MainWindow.cpp:94-171 | any sequence of opens, drops, notifications and teardowns, in any order, keeps the window consistent |
| `WindowProperties.NotificationsKeepRequest` | MainWindow.cpp:134-171 | notifications never change the current path, and the only image they can put on screen is the current path's |
| `WindowProperties.DisplayedImageNeedsCurrentSuccess` | MainWindow.cpp:136-140 | notifications that include no success for the current path leave the image on screen unchanged |
| `WindowProperties.RequestSupersedes` | MainWindow.cpp:96-116 | a second request wipes out everything the first set up except the image on screen |
| `WindowProperties.LastRequestWins` | MainWindow.cpp:94-132 | after a burst of non-empty open requests, the window is exactly as if only the last one had been made |
| `WindowProperties.OnlyLastRequestDisplayed` | MainWindow.cpp:136-140 | after a burst of requests, a success is shown (and the slot emptied) exactly when its path is the last request's path; any other success leaves the image and the slot as they were |
| `WindowProperties.TraceEffect` | MainWindow.cpp:134-171 | feeding a whole worker run to the window, whatever the current request: a success for the current path shows it and leaves the bar hidden at 100; a success for another path only moves the bar to 100; a failure always shows the failure text, hides the bar at 70, empties the slot and keeps the image |
| `WindowProperties.UncontestedSuccess` | ImageLoader.cpp:14-33 | a request whose decode succeeds, with nothing in between, ends with that image on screen, `Loaded: <file name>`, the bar hidden at 100 and no worker |
| `WindowProperties.UncontestedFailure` | ImageLoader.cpp:27-30 | a request whose decode fails ends with the old image kept, `Failed to load image: <path>` shown, the bar hidden at 70 and no worker |
| `WindowProperties.SupersededRun` | MainWindow.cpp:136-170 | after requests for `a` and then a different `b`, `a`'s whole run never changes the image. On success it leaves `b`'s label, worker and visible bar in place but moves the bar to 100; on failure it replaces the label with `a`'s failure text, hides the bar and drops `b`'s worker |
| `WindowProperties.RepeatedPathAcceptsEarlierRun` | MainWindow.cpp:136 | after two requests for the same path, the first run's success is accepted: the image is shown and the slot emptied |
| `WindowProperties.TeardownIdempotent` | MainWindow.cpp:37-43 | teardown with no worker changes nothing, and a second teardown changes nothing more |

## Left out

- Threads: `QThread` start, quit, wait and `deleteLater`, `moveToThread`, and the signal/slot connections (MainWindow.cpp:102-131, ImageLoader.cpp:17,25). Notifications are arbitrary sequential calls, and queued delivery after the sender has been deleted is not modelled. The worker slot records only whether a worker runs and for which path.
- The decode `QPixmap pixmap(m_filePath)` (ImageLoader.cpp:21) is a library call. Its outcome is the `decodeOk` parameter, and the pixmap is represented by its path.
- The file dialog in `openImage` (MainWindow.cpp:82-87) is user I/O. Its answer is the `chosen` parameter.
- `url.toLocalFile()` (MainWindow.cpp:221) and the MIME data around it: the drop handler receives the local paths directly. An event without URLs is an empty list. `acceptProposedAction` is not modelled.
- `Window.MainWindow.Teardown`: the destructor quits and waits for the thread but leaves the pointer set. The model empties the slot, because the slot stands for a running worker.
- `showImage` and `updateImageInfo` (MainWindow.cpp:140-141, 173-201): these cover viewer rendering, file-system queries, size and date formatting, and the info tree. Only the path of the displayed image is kept.
- `tr()` (ImageLoader.cpp:28) is taken to be the identity; no translation is modelled.
- `FileName` and `Suffix`: Qt's path handling beyond `/` separators is not modelled (Windows separators, `.` and `..`, a leading dot of a hidden file). `toLower` is modelled on ASCII only.
- `ImageViewer.cpp`, `main.cpp`, widget and menu construction, the drag-enter MIME check and window chrome (MainWindow.cpp:45-78, 203-211). These are rendering, floating-point zoom and UI plumbing.
