/** slideshow.go: the rotation engine. The advance ticker's goroutine is the
    explicit `Tick` step, and the hooks a slide receives are recorded in a
    ghost trace. */
module Slideshow {
  import opened Wrappers

  /** One configured slide. A concrete slide answers `IsEnabled` from its own
      state (the clock, the data it fetched); that answer is `enabled`. */
  class Slide {
    var enabled: bool

    constructor (enabled: bool)
      ensures this.enabled == enabled
    {
      this.enabled := enabled;
    }

    predicate IsEnabled()
      reads this
    {
      enabled
    }
  }

  /** The slide hooks and display calls the engine makes, in order. */
  datatype Event =
    | Initialize(slide: Slide)
    | Terminate(slide: Slide)
    | StartDraw(slide: Slide)
    | StopDraw(slide: Slide)
    | RedrawBlank

  /** One step of the engine's index, `(id + 1) % len`, for an id in
      `[-1, len)`: the operand is non-negative, where Go's truncating
      remainder agrees with Dafny's, and at most `len`. */
  function Step(id: int, n: nat): (i: nat)
    requires n > 0 && -1 <= id < n
    ensures i < n
    ensures i == if id + 1 == n then 0 else id + 1
  {
    (id + 1) % n
  }

  /** The index probed on the `k`-th step from `cur`. */
  function Probe(cur: int, k: nat, n: nat): (i: nat)
    requires n > 0 && -1 <= cur < n && k >= 1
    ensures i < n
  {
    if k == 1 then Step(cur, n) else Step(Probe(cur, k - 1, n), n)
  }

  /** Within one cycle the `k`-th probe is `cur + k`, wrapped once. */
  lemma {:induction false} ProbeWraps(cur: int, k: nat, n: nat)
    requires n > 0 && -1 <= cur < n && 1 <= k <= n
    ensures Probe(cur, k, n) == if cur + k < n then cur + k else cur + k - n
  {
    if k > 1 {
      ProbeWraps(cur, k - 1, n);
    }
  }

  /** The first offset `k..|en|` at which the cyclic scan from `cur` meets an
      enabled slide. */
  function Scan(en: seq<bool>, cur: int, k: nat): (r: Option<nat>)
    requires |en| > 0 && -1 <= cur < |en| && k >= 1
    decreases |en| + 1 - k
    ensures r.Some? ==> k <= r.value <= |en| && en[Probe(cur, r.value, |en|)]
    ensures r.Some? ==> forall j :: k <= j < r.value ==> !en[Probe(cur, j, |en|)]
    ensures r.None? ==> forall j :: k <= j <= |en| ==> !en[Probe(cur, j, |en|)]
  {
    if k > |en| then None
    else if en[Probe(cur, k, |en|)] then Some(k)
    else Scan(en, cur, k + 1)
  }

  /** The index `Advance` settles on: the first enabled slide strictly after
      `cur`, cyclically. */
  function NextEnabled(en: seq<bool>, cur: int): (r: Option<nat>)
    requires |en| > 0 && -1 <= cur < |en|
    ensures r.Some? ==> r.value < |en| && en[r.value]
  {
    match Scan(en, cur, 1)
    case Some(k) => Some(Probe(cur, k, |en|))
    case None => None
  }

  /** Every index is reached by one of the `|en|` probes. */
  lemma ProbeCovers(n: nat, cur: int, i: nat) returns (k: nat)
    requires n > 0 && -1 <= cur < n && i < n
    ensures 1 <= k <= n && Probe(cur, k, n) == i
  {
    k := if i > cur then i - cur else i - cur + n;
    ProbeWraps(cur, k, n);
  }

  /** The scan succeeds iff some slide is enabled, so the bounded loop finds
      a slide exactly when the source's unbounded loop ends. */
  lemma NextEnabledIffSomeEnabled(en: seq<bool>, cur: int)
    requires |en| > 0 && -1 <= cur < |en|
    ensures NextEnabled(en, cur).Some? <==> exists i :: 0 <= i < |en| && en[i]
  {
    if i :| 0 <= i < |en| && en[i] {
      var k := ProbeCovers(|en|, cur, i);
      assert en[Probe(cur, k, |en|)];
    }
  }

  /** No slide between `cur` and the chosen one (cyclically) is enabled. */
  lemma NextEnabledIsFirst(en: seq<bool>, cur: int, j: nat)
    requires |en| > 0 && -1 <= cur < |en| && NextEnabled(en, cur).Some?
    requires 1 <= j < Scan(en, cur, 1).value
    ensures !en[Probe(cur, j, |en|)]
  {
  }

  /** From the starting id -1 the scan begins at index 0: the chosen slide is
      the lowest-indexed enabled one. */
  lemma FirstAdvanceFromStart(en: seq<bool>, i: nat)
    requires |en| > 0 && NextEnabled(en, -1).Some? && i < NextEnabled(en, -1).value
    ensures !en[i]
  {
    var k := Scan(en, -1, 1).value;
    ProbeWraps(-1, i + 1, |en|);
    ProbeWraps(-1, k, |en|);
  }

  /** The `Initialize` (or `Terminate`) call on each slide, once, in list
      order. */
  function InitializeEach(slides: seq<Slide>): (t: seq<Event>)
    ensures |t| == |slides| && forall i :: 0 <= i < |slides| ==> t[i] == Initialize(slides[i])
  {
    if |slides| == 0 then [] else InitializeEach(slides[..|slides| - 1]) + [Initialize(slides[|slides| - 1])]
  }

  function TerminateEach(slides: seq<Slide>): (t: seq<Event>)
    ensures |t| == |slides| && forall i :: 0 <= i < |slides| ==> t[i] == Terminate(slides[i])
  {
    if |slides| == 0 then [] else TerminateEach(slides[..|slides| - 1]) + [Terminate(slides[|slides| - 1])]
  }

  ghost function EnabledOf(slides: seq<Slide>): (en: seq<bool>)
    reads slides
    ensures |en| == |slides| && forall i :: 0 <= i < |slides| ==> en[i] == slides[i].IsEnabled()
  {
    if |slides| == 0 then [] else EnabledOf(slides[..|slides| - 1]) + [slides[|slides| - 1].enabled]
  }

  class Slideshow {
    const Slides: seq<Slide>
    var Running: bool
    var Frozen: bool
    var CurrentSlide: Slide?
    var CurrentSlideId: int
    /** `AdvanceTicker != nil`, and whether that ticker is still ticking. */
    var TickerCreated: bool
    var TickerActive: bool
    ghost var Trace: seq<Event>

    ghost predicate IdInRange()
      reads this
    {
      -1 <= CurrentSlideId && (CurrentSlideId < |Slides| || |Slides| == 0)
    }

    /** A ticking or running show has a ticker, and a show with a ticker has
        been started, so it has a current slide and at least one slide. */
    ghost predicate Valid()
      reads this
    {
      IdInRange() &&
      (TickerActive ==> TickerCreated) &&
      (Running ==> TickerCreated) &&
      (TickerCreated ==> CurrentSlide != null && |Slides| > 0)
    }

    /** Whether each configured slide is enabled right now. */
    ghost function Enabledness(): (en: seq<bool>)
      reads Slides
      ensures |en| == |Slides| && forall i :: 0 <= i < |Slides| ==> en[i] == Slides[i].IsEnabled()
    {
      EnabledOf(Slides)
    }

    /** `NewSlideshow`: Go's zero values for everything but the slides. */
    constructor (slides: seq<Slide>)
      ensures Valid() && Slides == slides && Trace == []
      ensures !Running && !Frozen && CurrentSlide == null && CurrentSlideId == 0
      ensures !TickerCreated && !TickerActive
    {
      Slides := slides;
      Running := false;
      Frozen := false;
      CurrentSlide := null;
      CurrentSlideId := 0;
      TickerCreated := false;
      TickerActive := false;
      Trace := [];
    }

    /** `Advance`: stop drawing the outgoing slide, then probe at most
        `|Slides|` indices cyclically for an enabled one and start drawing
        it. When no slide is enabled the source spins forever; here the scan
        ends after a full cycle, back where it began, with nothing drawing. */
    method Advance() returns (found: bool)
      requires IdInRange() && |Slides| > 0 && CurrentSlide != null
      modifies this`CurrentSlideId, this`CurrentSlide, this`Trace
      ensures IdInRange() && (old(Valid()) ==> Valid())
      ensures found <==> NextEnabled(Enabledness(), old(CurrentSlideId)).Some?
      ensures found ==> CurrentSlideId == NextEnabled(Enabledness(), old(CurrentSlideId)).value
      ensures !found ==> CurrentSlideId == if old(CurrentSlideId) == -1 then |Slides| - 1 else old(CurrentSlideId)
      ensures 0 <= CurrentSlideId < |Slides| && CurrentSlide == Slides[CurrentSlideId]
      ensures Trace == old(Trace) + [StopDraw(old(CurrentSlide))] + if found then [StartDraw(CurrentSlide)] else []
    {
      Trace := Trace + [StopDraw(CurrentSlide)];
      var id;
      found, id := Seek(CurrentSlideId);
      CurrentSlideId := id;
      CurrentSlide := Slides[id];
      if found {
        Trace := Trace + [StartDraw(CurrentSlide)];
      }
    }

    /** The probing loop of `Advance`, from the slide at `cur0`: the index
        it stops at, and whether that slide is enabled. */
    method Seek(cur0: int) returns (found: bool, id: int)
      requires |Slides| > 0 && -1 <= cur0 < |Slides|
      ensures found <==> NextEnabled(Enabledness(), cur0).Some?
      ensures found ==> id == NextEnabled(Enabledness(), cur0).value
      ensures !found ==> id == if cur0 == -1 then |Slides| - 1 else cur0
      ensures 0 <= id < |Slides|
    {
      ghost var en := Enabledness();
      var n := |Slides|;
      id := cur0;
      var probes := 0;
      found := false;
      while probes < n
        invariant 0 <= probes <= n && -1 <= id < n
        invariant probes == 0 ==> id == cur0
        invariant probes > 0 ==> id == Probe(cur0, probes, n)
        invariant Scan(en, cur0, 1) == Scan(en, cur0, probes + 1)
      {
        id := Step(id, n);
        probes := probes + 1;
        if Slides[id].IsEnabled() {
          assert Scan(en, cur0, probes) == Some(probes);
          found := true;
          break;
        }
        assert Scan(en, cur0, probes) == Scan(en, cur0, probes + 1);
      }
      if !found {
        ProbeWraps(cur0, n, n);
      }
    }

    /** `WaitForReadiness`, less the connection wait and clock sync:
        initialise every slide once, in list order. */
    method WaitForReadiness()
      modifies this
      ensures Trace == old(Trace) + InitializeEach(Slides)
      ensures Running == old(Running) && Frozen == old(Frozen) && CurrentSlide == old(CurrentSlide)
      ensures CurrentSlideId == old(CurrentSlideId)
      ensures TickerCreated == old(TickerCreated) && TickerActive == old(TickerActive)
    {
      for i := 0 to |Slides|
        invariant Trace == old(Trace) + InitializeEach(Slides[..i])
        invariant Running == old(Running) && Frozen == old(Frozen) && CurrentSlide == old(CurrentSlide)
        invariant CurrentSlideId == old(CurrentSlideId)
        invariant TickerCreated == old(TickerCreated) && TickerActive == old(TickerActive)
      {
        assert Slides[..i + 1][..i] == Slides[..i];
        Trace := Trace + [Initialize(Slides[i])];
      }
      assert Slides[..|Slides|] == Slides;
    }

    /** `Start`: show a fresh welcome slide, initialise every slide, advance
        from id -1 and start the advance ticker. Go's `% len` panics on an
        empty slide list. */
    method Start() returns (ghost welcome: Slide, found: bool)
      requires Valid() && |Slides| > 0
      modifies this
      ensures Valid() && fresh(welcome)
      ensures Running && Frozen == old(Frozen) && TickerCreated && TickerActive
      ensures found <==> NextEnabled(Enabledness(), -1).Some?
      ensures found ==> CurrentSlideId == NextEnabled(Enabledness(), -1).value
      ensures 0 <= CurrentSlideId < |Slides| && CurrentSlide == Slides[CurrentSlideId]
      ensures Trace == old(Trace) + [StartDraw(welcome)] + InitializeEach(Slides) + [StopDraw(welcome)] +
                       if found then [StartDraw(CurrentSlide)] else []
    {
      ghost var en := Enabledness();
      welcome := ShowWelcome();
      WaitForReadiness();
      ghost var t1 := Trace;
      assert Enabledness() == en;
      found := Advance();
      assert Trace == t1 + [StopDraw(welcome)] + if found then [StartDraw(CurrentSlide)] else [];
      StartTicker();
    }

    /** `time.NewTicker` for the advance ticker. */
    method StartTicker()
      modifies this`TickerCreated, this`TickerActive
      ensures TickerCreated && TickerActive
    {
      TickerCreated := true;
      TickerActive := true;
    }

    /** The first steps of `Start`: running, before the first slide, with a
        fresh welcome slide drawing. */
    method ShowWelcome() returns (ghost welcome: Slide)
      requires |Slides| > 0
      modifies this`Running, this`CurrentSlideId, this`CurrentSlide, this`Trace
      ensures fresh(welcome) && welcome.IsEnabled()
      ensures Running && CurrentSlideId == -1 && CurrentSlide == welcome
      ensures Trace == old(Trace) + [StartDraw(welcome)]
    {
      Running := true;
      CurrentSlideId := -1;
      var w := new Slide(true);
      welcome := w;
      CurrentSlide := w;
      Trace := Trace + [StartDraw(w)];
    }

    /** `Stop`: Go dereferences the current slide and the ticker, so the show
        must have been started. */
    method Stop()
      requires Valid() && TickerCreated
      modifies this
      ensures Valid() && !Running && TickerCreated && !TickerActive
      ensures Frozen == old(Frozen) && CurrentSlide == old(CurrentSlide) && CurrentSlideId == old(CurrentSlideId)
      ensures Trace == old(Trace) + [StopDraw(old(CurrentSlide))] + TerminateEach(Slides) + [RedrawBlank]
    {
      Running := false;
      Trace := Trace + [StopDraw(CurrentSlide)];
      TickerActive := false;
      for i := 0 to |Slides|
        invariant Trace == old(Trace) + [StopDraw(old(CurrentSlide))] + TerminateEach(Slides[..i])
        invariant !Running && !TickerActive && TickerCreated && Valid()
        invariant Frozen == old(Frozen) && CurrentSlide == old(CurrentSlide) && CurrentSlideId == old(CurrentSlideId)
      {
        assert Slides[..i + 1][..i] == Slides[..i];
        Trace := Trace + [Terminate(Slides[i])];
      }
      assert Slides[..|Slides|] == Slides;
      Trace := Trace + [RedrawBlank];
    }

    method Freeze()
      modifies this
      ensures Frozen
      ensures Running == old(Running) && CurrentSlide == old(CurrentSlide) && CurrentSlideId == old(CurrentSlideId)
      ensures TickerCreated == old(TickerCreated) && TickerActive == old(TickerActive) && Trace == old(Trace)
    {
      Frozen := true;
    }

    /** `Unfreeze` clears the flag and advances once; Go dereferences the
        current slide, so the show must have had one. */
    method Unfreeze() returns (found: bool)
      requires IdInRange() && |Slides| > 0 && CurrentSlide != null
      modifies this
      ensures !Frozen && IdInRange() && (old(Valid()) ==> Valid())
      ensures 0 <= CurrentSlideId < |Slides| && CurrentSlide == Slides[CurrentSlideId]
      ensures Running == old(Running) && TickerCreated == old(TickerCreated) && TickerActive == old(TickerActive)
      ensures found <==> NextEnabled(Enabledness(), old(CurrentSlideId)).Some?
      ensures found ==> CurrentSlideId == NextEnabled(Enabledness(), old(CurrentSlideId)).value
      ensures Trace == old(Trace) + [StopDraw(old(CurrentSlide))] + if found then [StartDraw(CurrentSlide)] else []
    {
      Frozen := false;
      found := Advance();
    }

    /** One tick of the advance ticker: a stopped ticker delivers nothing,
        and a frozen show does not advance. */
    method Tick() returns (advanced: bool, found: bool)
      requires Valid()
      modifies this`CurrentSlideId, this`CurrentSlide, this`Trace
      ensures Valid()
      ensures advanced <==> old(TickerActive) && !old(Frozen)
      ensures !advanced ==> !found && unchanged(this)
      ensures advanced ==> |Slides| > 0 && 0 <= CurrentSlideId < |Slides| && CurrentSlide == Slides[CurrentSlideId]
      ensures advanced ==> (found <==> NextEnabled(Enabledness(), old(CurrentSlideId)).Some?)
      ensures advanced && found ==> CurrentSlideId == NextEnabled(Enabledness(), old(CurrentSlideId)).value
      ensures advanced && !found ==> CurrentSlideId == if old(CurrentSlideId) == -1 then |Slides| - 1 else old(CurrentSlideId)
      ensures advanced ==> Trace == old(Trace) + [StopDraw(old(CurrentSlide))] + if found then [StartDraw(CurrentSlide)] else []
    {
      advanced := TickerActive && !Frozen;
      found := false;
      if advanced {
        found := Advance();
      }
    }
  }
}
