/**
 * The main window's side of loading: what the interaction thread does with
 * a new request and with each notification a worker sends back. Worker
 * notifications arrive as ordinary calls in any order; the threads
 * themselves are not modelled, and the thread and worker pointers are
 * collapsed into one slot holding the path the running worker is bound to.
 */
module Window {
  import opened Options
  import opened Paths
  import opened Loading

  /** The window fields the loading logic reads and writes. */
  datatype WindowState = WindowState(
    currentImagePath: string,       // the path of the latest request
    activeLoader: Option<string>,   // the running worker, by the path it was built with
    status: string,                 // the status-bar label
    progressVisible: bool,
    progressValue: int,
    displayedImage: Option<string>) // the path whose pixmap the viewer shows

  /** The value a fresh progress bar holds: one below its minimum, meaning "no progress". */
  const NoProgress: int := -1

  /** The state the constructor leaves behind. */
  function InitialState(): WindowState
  {
    WindowState("", None, "Ready", false, NoProgress, None)
  }

  /**
   * The invariant the window keeps: the progress value stays within the
   * bar's range (or is the fresh value), and while a worker runs it is the
   * worker of the latest request, the bar is shown and the label says what
   * is being loaded.
   */
  predicate Consistent(s: WindowState)
  {
    && NoProgress <= s.progressValue <= 100
    && (s.activeLoader.Some? ==>
          && s.activeLoader.value == s.currentImagePath
          && s.progressVisible
          && 0 <= s.progressValue
          && s.status == "Loading: " + FileName(s.currentImagePath))
  }

  /**
   * QProgressBar::setValue on a bar whose range is 0..100: a value outside
   * the range is ignored.
   */
  function SetProgressValue(current: int, value: int): int
  {
    if 0 <= value <= 100 then value else current
  }

  /** MainWindow::loadImage: a new request that replaces whatever worker was running. */
  function AfterLoadImage(s: WindowState, path: string): (r: WindowState)
    ensures r.currentImagePath == path && r.activeLoader == Some(path)
    ensures r.status == "Loading: " + FileName(path)
    ensures r.progressVisible && r.progressValue == 0
    ensures r.displayedImage == s.displayedImage
    ensures Consistent(r)
  {
    s.(currentImagePath := path,
       status := "Loading: " + FileName(path),
       progressVisible := true,
       progressValue := SetProgressValue(s.progressValue, 0),
       activeLoader := Some(path))
  }

  /** MainWindow::onImageLoaded: accepted only when the path is the latest request's. */
  function AfterImageLoaded(s: WindowState, path: string): (r: WindowState)
    ensures path != s.currentImagePath ==> r == s
    ensures path == s.currentImagePath ==>
      && r.displayedImage == Some(path)
      && r.status == "Loaded: " + FileName(path)
      && !r.progressVisible
      && r.activeLoader == None
      && r.currentImagePath == s.currentImagePath
      && r.progressValue == s.progressValue
    ensures Consistent(s) ==> Consistent(r)
  {
    if path != s.currentImagePath then s
    else s.(displayedImage := Some(path),
            status := "Loaded: " + FileName(path),
            progressVisible := false,
            activeLoader := None)
  }

  /** MainWindow::onLoadProgress: moves the bar and nothing else, whichever worker sent it. */
  function AfterLoadProgress(s: WindowState, percent: int): (r: WindowState)
    ensures r == s.(progressValue := r.progressValue)
    ensures 0 <= percent <= 100 ==> r.progressValue == percent
    ensures !(0 <= percent <= 100) ==> r == s
    ensures Consistent(s) ==> Consistent(r)
  {
    s.(progressValue := SetProgressValue(s.progressValue, percent))
  }

  /** MainWindow::onLoadError: shows the message and drops the worker, with no path check. */
  function AfterLoadError(s: WindowState, message: string): (r: WindowState)
    ensures r.status == message && !r.progressVisible && r.activeLoader == None
    ensures r.currentImagePath == s.currentImagePath
    ensures r.displayedImage == s.displayedImage && r.progressValue == s.progressValue
    ensures Consistent(s) ==> Consistent(r)
  {
    s.(status := message, progressVisible := false, activeLoader := None)
  }

  /** MainWindow::~MainWindow: a running worker is stopped and waited for; nothing else changes. */
  function AfterTeardown(s: WindowState): (r: WindowState)
    ensures r.activeLoader == None
    ensures r == s.(activeLoader := None)
    ensures Consistent(s) ==> Consistent(r)
  {
    if s.activeLoader.Some? then s.(activeLoader := None) else s
  }

  /** MainWindow::openImage: the dialog's answer; an empty answer (cancelled) loads nothing. */
  function AfterOpenImage(s: WindowState, chosen: string): (r: WindowState)
    ensures chosen == "" ==> r == s
    ensures chosen != "" ==> r == AfterLoadImage(s, chosen)
  {
    if chosen != "" then AfterLoadImage(s, chosen) else s
  }

  /** MainWindow::dropEvent: loads the first dropped file with an image extension, if any. */
  function AfterDrop(s: WindowState, urls: seq<string>): WindowState
  {
    match FirstImageIndex(urls)
    case None => s
    case Some(k) => AfterLoadImage(s, urls[k])
  }

  /** A drop loads the first file with an image extension, and only that one. */
  lemma DropLoadsFirstImage(s: WindowState, urls: seq<string>, k: nat)
    requires k < |urls| && IsImageFile(urls[k])
    requires forall j :: 0 <= j < k ==> !IsImageFile(urls[j])
    ensures AfterDrop(s, urls) == AfterLoadImage(s, urls[k])
  {
  }

  /** A drop without an image file changes nothing. */
  lemma DropWithoutImageIgnored(s: WindowState, urls: seq<string>)
    requires forall j :: 0 <= j < |urls| ==> !IsImageFile(urls[j])
    ensures AfterDrop(s, urls) == s
  {
  }

  /** The signal a worker notification is delivered to. */
  function Deliver(s: WindowState, e: Event): WindowState
  {
    match e
    case Progress(percent) => AfterLoadProgress(s, percent)
    case Loaded(path) => AfterImageLoaded(s, path)
    case Error(message) => AfterLoadError(s, message)
  }

  /** What reaches the window: user actions and worker notifications. */
  datatype Input =
    | Open(chosen: string)
    | Drop(urls: seq<string>)
    | Notify(event: Event)
    | Close

  function Step(s: WindowState, input: Input): WindowState
  {
    match input
    case Open(chosen) => AfterOpenImage(s, chosen)
    case Drop(urls) => AfterDrop(s, urls)
    case Notify(e) => Deliver(s, e)
    case Close => AfterTeardown(s)
  }

  /** The window after handling `inputs` one by one, in order. */
  function Run(s: WindowState, inputs: seq<Input>): WindowState
    decreases |inputs|
  {
    if inputs == [] then s else Run(Step(s, inputs[0]), inputs[1..])
  }

  /** A worker's trace as it arrives at the window. */
  function Notifications(trace: seq<Event>): (inputs: seq<Input>)
    ensures |inputs| == |trace|
    ensures forall i :: 0 <= i < |trace| ==> inputs[i] == Notify(trace[i])
  {
    seq(|trace|, i requires 0 <= i < |trace| => Notify(trace[i]))
  }

  /**
   * The window object. Its methods are the slots and handlers, each proved
   * to leave the state its step function describes.
   */
  class MainWindow {
    var currentImagePath: string
    var activeLoader: Option<string>
    var statusText: string
    var progressVisible: bool
    var progressValue: int
    var displayedImage: Option<string>

    function View(): WindowState
      reads this
    {
      WindowState(currentImagePath, activeLoader, statusText, progressVisible, progressValue, displayedImage)
    }

    ghost predicate Valid()
      reads this
    {
      Consistent(View())
    }

    constructor ()
      ensures Valid() && View() == InitialState()
    {
      currentImagePath := "";
      activeLoader := None;
      statusText := "Ready";
      progressVisible := false;
      progressValue := NoProgress;
      displayedImage := None;
    }

    method LoadImage(path: string)
      requires Valid()
      modifies this
      ensures Valid() && View() == AfterLoadImage(old(View()), path)
    {
      currentImagePath := path;
      statusText := "Loading: " + FileName(path);
      progressVisible := true;
      progressValue := SetProgressValue(progressValue, 0);
      if activeLoader.Some? {
        // the previous worker is stopped, waited for and deleted
        activeLoader := None;
      }
      activeLoader := Some(path);
    }

    method OpenImage(chosen: string)
      requires Valid()
      modifies this
      ensures Valid() && View() == AfterOpenImage(old(View()), chosen)
    {
      if chosen != "" {
        LoadImage(chosen);
      }
    }

    method OnImageLoaded(path: string)
      requires Valid()
      modifies this
      ensures Valid() && View() == AfterImageLoaded(old(View()), path)
    {
      if path != currentImagePath {
        return;
      }
      displayedImage := Some(path);
      statusText := "Loaded: " + FileName(path);
      progressVisible := false;
      if activeLoader.Some? {
        activeLoader := None;
      }
    }

    method OnLoadProgress(percent: int)
      requires Valid()
      modifies this
      ensures Valid() && View() == AfterLoadProgress(old(View()), percent)
    {
      progressValue := SetProgressValue(progressValue, percent);
    }

    method OnLoadError(message: string)
      requires Valid()
      modifies this
      ensures Valid() && View() == AfterLoadError(old(View()), message)
    {
      statusText := message;
      progressVisible := false;
      if activeLoader.Some? {
        activeLoader := None;
      }
    }

    method Teardown()
      requires Valid()
      modifies this
      ensures Valid() && View() == AfterTeardown(old(View()))
    {
      if activeLoader.Some? {
        // quit() and wait(): the worker is stopped
        activeLoader := None;
      }
    }

    method DropEvent(urls: seq<string>)
      requires Valid()
      modifies this
      ensures Valid() && View() == AfterDrop(old(View()), urls)
    {
      var i := 0;
      while i < |urls|
        invariant 0 <= i <= |urls|
        invariant forall j :: 0 <= j < i ==> !IsImageFile(urls[j])
        invariant unchanged(this)
      {
        if IsImageFile(urls[i]) {
          DropLoadsFirstImage(View(), urls, i);
          LoadImage(urls[i]);
          return; // the source breaks out of the loop: only the first image file is loaded
        }
        i := i + 1;
      }
      DropWithoutImageIgnored(old(View()), urls);
    }
  }
}
