/**
 * One run of the worker object ImageLoader: the ordered notifications it
 * sends for one file. The decode itself is an outside call, so its outcome
 * is a parameter (`decodeOk`: the decoded pixmap is not null).
 */
module Loading {

  /** The three signals ImageLoader emits, in the order they are emitted. */
  datatype Event =
    | Progress(percent: int)
    | Loaded(path: string)
    | Error(message: string)
  {
    /** A terminal notification ends the run: success or failure. */
    predicate IsTerminal() { !Progress? }
  }

  /** A worker bound to one file path at construction. */
  datatype ImageLoader = ImageLoader(filePath: string)

  const FailurePrefix: string := "Failed to load image: "

  /** The failure text the worker emits: a fixed prefix followed by the path. */
  function FailureMessage(path: string): (msg: string)
    ensures |msg| == |FailurePrefix| + |path|
    ensures msg[..|FailurePrefix|] == FailurePrefix && msg[|FailurePrefix|..] == path
  {
    FailurePrefix + path
  }

  /**
   * The protocol every run keeps: a run of progress reports, strictly
   * increasing and within 0..100, closed by exactly one terminal event.
   */
  predicate WellFormedTrace(trace: seq<Event>)
  {
    && |trace| > 0
    && trace[|trace| - 1].IsTerminal()
    && (forall i :: 0 <= i < |trace| - 1 ==> trace[i].Progress?)
    && (forall i :: 0 <= i < |trace| - 1 ==> 0 <= trace[i].percent <= 100)
    && (forall i, j :: 0 <= i < j < |trace| - 1 ==> trace[i].percent < trace[j].percent)
  }

  /** ImageLoader::loadImage: the notifications of one run, in emission order. */
  function LoadImage(loader: ImageLoader, decodeOk: bool): (trace: seq<Event>)
    ensures WellFormedTrace(trace)
    ensures |trace| == if decodeOk then 5 else 4
    ensures trace[..3] == [Progress(10), Progress(30), Progress(70)]
    ensures decodeOk ==> trace[|trace| - 1] == Loaded(loader.filePath)
    ensures !decodeOk ==> trace[|trace| - 1] == Error(FailureMessage(loader.filePath))
    ensures Progress(100) in trace <==> decodeOk
    ensures forall i :: 0 <= i < |trace| && trace[i].Loaded? ==> trace[i].path == loader.filePath
  {
    var start := [Progress(10), Progress(30), Progress(70)];
    if decodeOk then start + [Progress(100), Loaded(loader.filePath)]
    else start + [Error(FailureMessage(loader.filePath))]
  }

  /** The two possible runs, written out. */
  lemma LoadImageShapes(path: string)
    ensures LoadImage(ImageLoader(path), true)
      == [Progress(10), Progress(30), Progress(70), Progress(100), Loaded(path)]
    ensures LoadImage(ImageLoader(path), false)
      == [Progress(10), Progress(30), Progress(70), Error("Failed to load image: " + path)]
  {
  }

  /** In a well-formed trace the terminal event is the only one, so success and failure exclude each other. */
  lemma ExactlyOneTerminal(trace: seq<Event>, i: nat)
    requires WellFormedTrace(trace)
    requires i < |trace| && trace[i].IsTerminal()
    ensures i == |trace| - 1
  {
  }

  /** Every run ends in exactly one of the two outcomes, decided by the decode alone. */
  lemma OutcomeExclusive(loader: ImageLoader, decodeOk: bool)
    ensures var trace := LoadImage(loader, decodeOk);
      (exists i :: 0 <= i < |trace| && trace[i].Loaded?) <==> decodeOk
    ensures var trace := LoadImage(loader, decodeOk);
      (exists i :: 0 <= i < |trace| && trace[i].Error?) <==> !decodeOk
  {
    var trace := LoadImage(loader, decodeOk);
    if decodeOk {
      assert trace[4].Loaded?;
    } else {
      assert trace[3].Error?;
    }
  }
}
