/** controller.go: the HTTP control endpoint. Which action a request may
    trigger is a pure decision on the request and the show's flags; the
    response body is left out and the status code returned. */
module Controller {
  import Slideshow

  datatype Action = DoStart | DoStop | DoFreeze | DoUnfreeze | DoShutdown | NoAction

  datatype Decision = Decision(action: Action, code: int)

  /** The guard of `ServeHTTP`: only POST is served, each known path acts
      only when the show's state allows it (412 otherwise), and an unknown
      path is a 400. `/freeze` and `/unfreeze` look only at `Frozen`. */
  function Decide(verb: string, path: string, running: bool, frozen: bool): (d: Decision)
    ensures verb != "POST" ==> d == Decision(NoAction, 405)
    ensures d.action != NoAction <==> d.code == 200
    ensures d.action == DoStart <==> verb == "POST" && path == "/start" && !running
    ensures d.action == DoStop <==> verb == "POST" && path == "/stop" && running
    ensures d.action == DoFreeze <==> verb == "POST" && path == "/freeze" && !frozen
    ensures d.action == DoUnfreeze <==> verb == "POST" && path == "/unfreeze" && frozen
    ensures d.action == DoShutdown <==> verb == "POST" && path == "/shutdown"
    ensures d.code == 412 <==>
              (verb == "POST" &&
               ((path == "/start" && running) || (path == "/stop" && !running) ||
                (path == "/freeze" && frozen) || (path == "/unfreeze" && !frozen)))
    ensures d.code == 400 <==> verb == "POST" && path !in {"/start", "/stop", "/freeze", "/unfreeze", "/shutdown"}
  {
    if verb != "POST" then Decision(NoAction, 405)
    else if path == "/start" then (if !running then Decision(DoStart, 200) else Decision(NoAction, 412))
    else if path == "/stop" then (if running then Decision(DoStop, 200) else Decision(NoAction, 412))
    else if path == "/freeze" then (if !frozen then Decision(DoFreeze, 200) else Decision(NoAction, 412))
    else if path == "/unfreeze" then (if frozen then Decision(DoUnfreeze, 200) else Decision(NoAction, 412))
    else if path == "/shutdown" then Decision(DoShutdown, 200)
    else Decision(NoAction, 400)
  }

  class Controller {
    const Show: Slideshow.Slideshow
    /** A value sent on `ShutdownCh`. */
    var ShutdownRequested: bool

    constructor (s: Slideshow.Slideshow)
      ensures Show == s && !ShutdownRequested
    {
      Show := s;
      ShutdownRequested := false;
    }

    /** `ServeHTTP`: each accepted action has exactly the effect of the
        slideshow method it calls; `welcome` is the welcome slide a start
        creates and `found` whether a start or unfreeze found an enabled
        slide. Go panics where the show it drives would: `/start` on an
        empty slide list, and `/unfreeze` of a show that never had a
        current slide (frozen before its first start). */
    method ServeHTTP(verb: string, path: string) returns (code: int, ghost welcome: Slideshow.Slide?, ghost found: bool)
      requires Show.Valid()
      requires Decide(verb, path, Show.Running, Show.Frozen).action == DoStart ==> |Show.Slides| > 0
      requires Decide(verb, path, Show.Running, Show.Frozen).action == DoUnfreeze ==>
                 |Show.Slides| > 0 && Show.CurrentSlide != null
      modifies this, Show
      ensures Show.Valid()
      ensures code == old(Decide(verb, path, Show.Running, Show.Frozen)).code
      ensures old(Decide(verb, path, Show.Running, Show.Frozen)).action == NoAction ==>
                unchanged(Show) && ShutdownRequested == old(ShutdownRequested)
      ensures old(Decide(verb, path, Show.Running, Show.Frozen)).action == DoShutdown ==>
                unchanged(Show) && ShutdownRequested
      ensures old(Decide(verb, path, Show.Running, Show.Frozen)).action in {DoStart, DoStop, DoFreeze, DoUnfreeze} ==>
                ShutdownRequested == old(ShutdownRequested)
      // an accepted start, stop, freeze or unfreeze, repeated, is refused
      ensures old(Decide(verb, path, Show.Running, Show.Frozen)).action in {DoStart, DoStop, DoFreeze, DoUnfreeze} ==>
                Decide(verb, path, Show.Running, Show.Frozen).code == 412
      ensures old(Decide(verb, path, Show.Running, Show.Frozen)).action == DoStart ==>
                welcome != null && fresh(welcome) &&
                Show.Running && Show.TickerCreated && Show.TickerActive && Show.Frozen == old(Show.Frozen) &&
                (found <==> Slideshow.NextEnabled(Show.Enabledness(), -1).Some?) &&
                (found ==> Show.CurrentSlideId == Slideshow.NextEnabled(Show.Enabledness(), -1).value) &&
                0 <= Show.CurrentSlideId < |Show.Slides| && Show.CurrentSlide == Show.Slides[Show.CurrentSlideId] &&
                Show.Trace == old(Show.Trace) + [Slideshow.StartDraw(welcome)] + Slideshow.InitializeEach(Show.Slides) +
                              [Slideshow.StopDraw(welcome)] + if found then [Slideshow.StartDraw(Show.CurrentSlide)] else []
      ensures old(Decide(verb, path, Show.Running, Show.Frozen)).action == DoStop ==>
                !Show.Running && Show.TickerCreated && !Show.TickerActive && Show.Frozen == old(Show.Frozen) &&
                Show.CurrentSlide == old(Show.CurrentSlide) && Show.CurrentSlideId == old(Show.CurrentSlideId) &&
                Show.Trace == old(Show.Trace) + [Slideshow.StopDraw(old(Show.CurrentSlide))] +
                              Slideshow.TerminateEach(Show.Slides) + [Slideshow.RedrawBlank]
      ensures old(Decide(verb, path, Show.Running, Show.Frozen)).action == DoFreeze ==>
                Show.Frozen && Show.Running == old(Show.Running) &&
                Show.CurrentSlide == old(Show.CurrentSlide) && Show.CurrentSlideId == old(Show.CurrentSlideId) &&
                Show.TickerCreated == old(Show.TickerCreated) && Show.TickerActive == old(Show.TickerActive) &&
                Show.Trace == old(Show.Trace)
      ensures old(Decide(verb, path, Show.Running, Show.Frozen)).action == DoUnfreeze ==>
                !Show.Frozen && Show.Running == old(Show.Running) &&
                Show.TickerCreated == old(Show.TickerCreated) && Show.TickerActive == old(Show.TickerActive) &&
                (found <==> Slideshow.NextEnabled(Show.Enabledness(), old(Show.CurrentSlideId)).Some?) &&
                (found ==> Show.CurrentSlideId == Slideshow.NextEnabled(Show.Enabledness(), old(Show.CurrentSlideId)).value) &&
                0 <= Show.CurrentSlideId < |Show.Slides| && Show.CurrentSlide == Show.Slides[Show.CurrentSlideId] &&
                Show.Trace == old(Show.Trace) + [Slideshow.StopDraw(old(Show.CurrentSlide))] +
                              if found then [Slideshow.StartDraw(Show.CurrentSlide)] else []
    {
      welcome := null;
      found := false;
      var d := Decide(verb, path, Show.Running, Show.Frozen);
      match d.action {
        case DoStart =>
          welcome, found := Show.Start();
        case DoStop =>
          Show.Stop();
        case DoFreeze =>
          Show.Freeze();
        case DoUnfreeze =>
          found := Show.Unfreeze();
        case DoShutdown =>
          ShutdownRequested := true;
        case NoAction =>
      }
      code := d.code;
    }
  }
}
