/**
 * What the window's loading logic guarantees over whole runs of requests
 * and notifications, including what it lets through: freshness is decided
 * by comparing paths, and only the success notification is checked.
 */
module WindowProperties {
  import opened Options
  import opened Paths
  import opened Loading
  import opened Window

  /** Handling `x` and then `y` is handling `x + y`. */
  lemma {:induction false} RunAppend(s: WindowState, x: seq<Input>, y: seq<Input>)
    ensures Run(s, x + y) == Run(Run(s, x), y)
    decreases |x|
  {
    if x == [] {
      assert x + y == y;
    } else {
      assert (x + y)[0] == x[0];
      assert (x + y)[1..] == x[1..] + y;
      RunAppend(Step(s, x[0]), x[1..], y);
    }
  }

  /** Every input keeps the window consistent, whatever order the inputs come in. */
  lemma {:induction false} RunKeepsConsistent(s: WindowState, inputs: seq<Input>)
    requires Consistent(s)
    ensures Consistent(Run(s, inputs))
    decreases |inputs|
  {
    if inputs != [] {
      var next := Step(s, inputs[0]);
      assert Consistent(next) by {
        if inputs[0].Drop? {
          match FirstImageIndex(inputs[0].urls)
          case None =>
          case Some(k) =>
        }
      }
      RunKeepsConsistent(next, inputs[1..]);
    }
  }

  predicate OnlyNotifications(inputs: seq<Input>)
  {
    forall i :: 0 <= i < |inputs| ==> inputs[i].Notify?
  }

  /**
   * Notifications never change the request, and the only image they can
   * put on screen is the one the latest request names.
   */
  lemma {:induction false} NotificationsKeepRequest(s: WindowState, inputs: seq<Input>)
    requires OnlyNotifications(inputs)
    ensures Run(s, inputs).currentImagePath == s.currentImagePath
    ensures Run(s, inputs).displayedImage in {s.displayedImage, Some(s.currentImagePath)}
    decreases |inputs|
  {
    if inputs != [] {
      var next := Step(s, inputs[0]);
      assert next.currentImagePath == s.currentImagePath;
      assert next.displayedImage in {s.displayedImage, Some(s.currentImagePath)};
      assert OnlyNotifications(inputs[1..]) by {
        forall i | 0 <= i < |inputs[1..]| ensures inputs[1..][i].Notify? {
          assert inputs[1..][i] == inputs[i + 1];
        }
      }
      NotificationsKeepRequest(next, inputs[1..]);
    }
  }

  /** Without a success notification for the requested path, the displayed image stays as it was. */
  lemma {:induction false} DisplayedImageNeedsCurrentSuccess(s: WindowState, inputs: seq<Input>)
    requires OnlyNotifications(inputs)
    requires forall i :: 0 <= i < |inputs| ==> inputs[i] != Notify(Loaded(s.currentImagePath))
    ensures Run(s, inputs).displayedImage == s.displayedImage
    decreases |inputs|
  {
    if inputs != [] {
      var next := Step(s, inputs[0]);
      assert next.currentImagePath == s.currentImagePath && next.displayedImage == s.displayedImage;
      forall i | 0 <= i < |inputs[1..]|
        ensures inputs[1..][i].Notify? && inputs[1..][i] != Notify(Loaded(next.currentImagePath))
      {
        assert inputs[1..][i] == inputs[i + 1];
      }
      DisplayedImageNeedsCurrentSuccess(next, inputs[1..]);
    }
  }

  /** A new request replaces everything an earlier one set up, except the image on screen. */
  lemma RequestSupersedes(s: WindowState, a: string, b: string)
    ensures AfterLoadImage(AfterLoadImage(s, a), b) == AfterLoadImage(s, b)
  {
  }

  function Opens(paths: seq<string>): (inputs: seq<Input>)
    ensures |inputs| == |paths|
    ensures forall i :: 0 <= i < |paths| ==> inputs[i] == Open(paths[i])
  {
    seq(|paths|, i requires 0 <= i < |paths| => Open(paths[i]))
  }

  /** After a burst of requests the window is exactly as if only the last one had been made. */
  lemma {:induction false} LastRequestWins(s: WindowState, paths: seq<string>)
    requires |paths| > 0
    requires forall i :: 0 <= i < |paths| ==> paths[i] != ""
    ensures Run(s, Opens(paths)) == AfterLoadImage(s, paths[|paths| - 1])
    decreases |paths|
  {
    var next := AfterLoadImage(s, paths[0]);
    assert Opens(paths)[1..] == Opens(paths[1..]);
    if |paths| == 1 {
      assert Run(s, Opens(paths)) == Run(next, []);
    } else {
      LastRequestWins(next, paths[1..]);
      RequestSupersedes(s, paths[0], paths[|paths| - 1]);
    }
  }

  /**
   * After a burst of requests, a success notification is shown exactly
   * when its path is the last request's path.
   */
  lemma OnlyLastRequestDisplayed(s: WindowState, paths: seq<string>, q: string)
    requires |paths| > 0
    requires forall i :: 0 <= i < |paths| ==> paths[i] != ""
    ensures var r := Run(s, Opens(paths) + [Notify(Loaded(q))]);
      && (q == paths[|paths| - 1] ==> r.displayedImage == Some(q) && r.activeLoader == None)
      && (q != paths[|paths| - 1] ==> r.displayedImage == s.displayedImage && r.activeLoader == Some(paths[|paths| - 1]))
  {
    RunAppend(s, Opens(paths), [Notify(Loaded(q))]);
    LastRequestWins(s, paths);
  }

  /** The first notification of a trace is handled first. */
  lemma RunNotificationsFirst(s: WindowState, trace: seq<Event>)
    requires |trace| > 0
    ensures Run(s, Notifications(trace)) == Run(Deliver(s, trace[0]), Notifications(trace[1..]))
  {
    assert Notifications(trace)[1..] == Notifications(trace[1..]);
  }

  /** A request followed by the full trace of its own worker, with no other request in between. */
  lemma RunRequestThenTrace(s: WindowState, p: string, trace: seq<Event>)
    requires p != ""
    ensures Run(s, [Open(p)] + Notifications(trace)) == Run(AfterLoadImage(s, p), Notifications(trace))
  {
    RunAppend(s, [Open(p)], Notifications(trace));
  }

  /**
   * The window after the whole trace of one worker run for `path`, whatever
   * the latest request is: progress is always shown, an error always lands,
   * and the image is taken only when `path` is the latest request's path.
   */
  lemma TraceEffect(s: WindowState, path: string, decodeOk: bool)
    ensures var r := Run(s, Notifications(LoadImage(ImageLoader(path), decodeOk)));
      && r.currentImagePath == s.currentImagePath
      && (decodeOk && path == s.currentImagePath ==>
            && r.displayedImage == Some(path)
            && r.status == "Loaded: " + FileName(path)
            && !r.progressVisible && r.progressValue == 100
            && r.activeLoader == None)
      && (decodeOk && path != s.currentImagePath ==>
            r == s.(progressValue := 100))
      && (!decodeOk ==>
            && r.displayedImage == s.displayedImage
            && r.status == FailureMessage(path)
            && !r.progressVisible && r.progressValue == 70
            && r.activeLoader == None)
  {
    var t := LoadImage(ImageLoader(path), decodeOk);
    var s1 := Deliver(s, t[0]);
    var s2 := Deliver(s1, t[1]);
    var s3 := Deliver(s2, t[2]);
    var s4 := Deliver(s3, t[3]);
    RunNotificationsFirst(s, t);
    RunNotificationsFirst(s1, t[1..]);
    RunNotificationsFirst(s2, t[2..]);
    RunNotificationsFirst(s3, t[3..]);
    if decodeOk {
      var s5 := Deliver(s4, t[4]);
      RunNotificationsFirst(s4, t[4..]);
      assert t[5..] == [];
      assert Run(s, Notifications(t)) == s5;
    } else {
      assert t[4..] == [];
      assert Run(s, Notifications(t)) == s4;
    }
  }

  /** One uncontested successful request: progress 10, 30, 70, 100, then the image is shown. */
  lemma UncontestedSuccess(s: WindowState, p: string)
    requires p != ""
    ensures var r := Run(s, [Open(p)] + Notifications(LoadImage(ImageLoader(p), true)));
      && r.currentImagePath == p
      && r.displayedImage == Some(p)
      && r.status == "Loaded: " + FileName(p)
      && !r.progressVisible && r.progressValue == 100
      && r.activeLoader == None
  {
    RunRequestThenTrace(s, p, LoadImage(ImageLoader(p), true));
    TraceEffect(AfterLoadImage(s, p), p, true);
  }

  /** One uncontested failed request: the old image stays, the failure text is shown. */
  lemma UncontestedFailure(s: WindowState, p: string)
    requires p != ""
    ensures var r := Run(s, [Open(p)] + Notifications(LoadImage(ImageLoader(p), false)));
      && r.currentImagePath == p
      && r.displayedImage == s.displayedImage
      && r.status == "Failed to load image: " + p
      && !r.progressVisible && r.progressValue == 70
      && r.activeLoader == None
  {
    RunRequestThenTrace(s, p, LoadImage(ImageLoader(p), false));
    TraceEffect(AfterLoadImage(s, p), p, false);
  }

  /**
   * Request `a`, then `b` with a different path, then the whole trace of
   * `a`'s worker arrives: its image is never shown, but its progress moves
   * the bar, and its failure overwrites the label and drops `b`'s worker.
   */
  lemma SupersededRun(s: WindowState, a: string, b: string, decodeOk: bool)
    requires a != "" && b != "" && a != b
    ensures var r := Run(s, Opens([a, b]) + Notifications(LoadImage(ImageLoader(a), decodeOk)));
      && r.currentImagePath == b
      && r.displayedImage == s.displayedImage
      && (decodeOk ==>
            && r.status == "Loading: " + FileName(b)
            && r.progressVisible && r.progressValue == 100
            && r.activeLoader == Some(b))
      && (!decodeOk ==>
            && r.status == "Failed to load image: " + a
            && !r.progressVisible
            && r.activeLoader == None)
  {
    RunAppend(s, Opens([a, b]), Notifications(LoadImage(ImageLoader(a), decodeOk)));
    LastRequestWins(s, [a, b]);
    TraceEffect(AfterLoadImage(s, b), a, decodeOk);
  }

  /**
   * Requesting the same path twice: the first worker's success is taken
   * for the second request (freshness is a path comparison), and the
   * second worker is stopped and dropped from the slot.
   */
  lemma RepeatedPathAcceptsEarlierRun(s: WindowState, a: string)
    requires a != ""
    ensures var r := Run(s, Opens([a, a]) + Notifications(LoadImage(ImageLoader(a), true)));
      && r.displayedImage == Some(a)
      && r.status == "Loaded: " + FileName(a)
      && r.activeLoader == None
  {
    RunAppend(s, Opens([a, a]), Notifications(LoadImage(ImageLoader(a), true)));
    LastRequestWins(s, [a, a]);
    TraceEffect(AfterLoadImage(s, a), a, true);
  }

  /** Teardown with no running worker does nothing, and a second teardown adds nothing. */
  lemma TeardownIdempotent(s: WindowState)
    ensures AfterTeardown(AfterTeardown(s)) == AfterTeardown(s)
    ensures s.activeLoader == None ==> AfterTeardown(s) == s
  {
  }
}
