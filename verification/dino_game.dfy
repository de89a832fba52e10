/** The click-score game of the page-routed site: dinosaur particles that
    disappear when clicked, a score with milestone banners and confetti, and
    the timers that hide each of these again. Time is an abstract clock in
    whole milliseconds; the random attributes of a particle are a parameter. */
module DinoGame {
  import opened Optional
  import opened Timers

  /** How many particles the component makes when no `count` is passed. */
  const DefaultCount: nat := 90

  const PopupMs: nat := 1000
  const BannerMs: nat := 3000
  const ConfettiMs: nat := 4000
  const DisplayMs: nat := 6000

  const Milestones: seq<int> := [5, 10, 20, 50, 100]

  /** The random, floating-point attributes of one particle: position, turn,
      size, delay, picture, speed and drift. Only drawn, never inspected. */
  datatype Look = Look(left: real, top: real, rotation: real, size: real, delay: real,
                       image: string, duration: real, dx: real, dy: real, amplitude: real)

  datatype Particle = Particle(id: nat, look: Look, visible: bool)

  /** Where the last click happened; the "+1" popup is drawn there. */
  datatype Point = Point(x: real, y: real)

  /** The component's state: its particles, its React state variables, the
      three timers it keeps handles to, the "+1" timers it forgets, and the
      current time. */
  datatype Game = Game(
    particles: seq<Particle>,
    score: nat,
    popupAt: Point,
    showScore: bool,
    showScoreDisplay: bool,
    showMilestone: bool,
    milestoneText: string,
    confetti: bool,
    scoreTimer: Option<nat>,
    milestoneTimer: Option<nat>,
    confettiTimer: Option<nat>,
    popupTimers: seq<nat>,
    now: nat)

  predicate IsMilestone(score: int) {
    score in Milestones
  }

  /** The banner text for a score: non-empty exactly at a milestone. */
  function MilestoneText(score: int): (r: string)
    ensures r != "" <==> IsMilestone(score)
  {
    if score == 5 then "NICE START!"
    else if score == 10 then "DOUBLE DIGITS!"
    else if score == 20 then "DINO HUNTER!"
    else if score == 50 then "EXTINCTION EVENT!"
    else if score == 100 then "PALEONTOLOGIST!"
    else ""
  }

  /** Different milestones never share a banner text. */
  lemma MilestoneTextsDistinct(a: int, b: int)
    requires IsMilestone(a) && IsMilestone(b) && a != b
    ensures MilestoneText(a) != MilestoneText(b)
  {
    assert |MilestoneText(a)| != |MilestoneText(b)|;
  }

  /** The colour of the score digits: white below the first milestone, then one
      colour per milestone band. */
  function ScoreColor(score: int): string
  {
    if score >= 100 then "text-yellow-400"
    else if score >= 50 then "text-red-500"
    else if score >= 20 then "text-green-500"
    else if score >= 10 then "text-blue-500"
    else if score >= 5 then "text-purple-500"
    else "text-white"
  }

  /** The colour of the score box's border, on the same ladder except that it
      is already purple below the first milestone. */
  function BorderColor(score: int): string
  {
    if score >= 100 then "border-yellow-400"
    else if score >= 50 then "border-red-500"
    else if score >= 20 then "border-green-500"
    else if score >= 10 then "border-blue-500"
    else if score >= 5 then "border-purple-500"
    else "border-purple-500"
  }

  /** The digits change colour exactly when the score reaches a milestone, and
      they are white exactly before the first one. */
  lemma ScoreColorStepsAtMilestones(score: int)
    ensures ScoreColor(score + 1) != ScoreColor(score) <==> IsMilestone(score + 1)
    ensures ScoreColor(score) == "text-white" <==> score < 5
  {}

  /** The border changes colour at every milestone except the first, where it
      is purple already. */
  lemma BorderColorStepsAtMilestones(score: int)
    ensures BorderColor(score + 1) != BorderColor(score) <==> IsMilestone(score + 1) && score + 1 != 5
  {}

  /** From the first milestone on, two scores share a border colour exactly when
      they share a digit colour; below it the border already has the first
      milestone's colour while the digits do not. */
  lemma BorderFollowsScoreColor(s: int, t: int)
    ensures s >= 5 && t >= 5 ==> (ScoreColor(s) == ScoreColor(t) <==> BorderColor(s) == BorderColor(t))
    ensures s < 5 ==> BorderColor(s) == BorderColor(5) && ScoreColor(s) != ScoreColor(5)
  {}

  /** The particles right after mounting: `count` of them, particle `i` has id
      `i`, the look drawn for it, and is visible; nothing else is showing. */
  function Mount(count: nat, look: nat -> Look, now: nat): (g: Game)
    ensures |g.particles| == count
    ensures forall i :: 0 <= i < count ==> g.particles[i] == Particle(i, look(i), true)
    ensures g.score == 0 && g.now == now
    ensures !g.showScore && !g.showScoreDisplay && !g.showMilestone && !g.confetti
    ensures g.milestoneText == ""
    ensures g.scoreTimer.None? && g.milestoneTimer.None? && g.confettiTimer.None?
    ensures g.popupTimers == [] && g.popupAt == Point(0.0, 0.0)
  {
    Game(seq(count, i requires 0 <= i < count => Particle(i, look(i), true)),
      0, Point(0.0, 0.0), false, false, false, "", false, None, None, None, [], now)
  }

  /** The particle update of a click: every particle with the clicked id is
      marked invisible; nothing else changes, and nothing moves. */
  function MarkCaught(ps: seq<Particle>, id: nat): (r: seq<Particle>)
    ensures |r| == |ps|
    ensures forall i :: 0 <= i < |ps| ==>
      r[i].id == ps[i].id && r[i].look == ps[i].look &&
      (r[i].visible <==> ps[i].visible && ps[i].id != id)
  {
    seq(|ps|, i requires 0 <= i < |ps| =>
      if ps[i].id == id then ps[i].(visible := false) else ps[i])
  }

  /** The click handler, at the current time. */
  function Catch(g: Game, id: nat, at: Point): (r: Game)
    ensures r.score == g.score + 1
    ensures r.particles == MarkCaught(g.particles, id)
    ensures r.showScore && r.showScoreDisplay && r.popupAt == at
    ensures r.scoreTimer == Some(g.now + DisplayMs)
    ensures r.popupTimers == g.popupTimers + [g.now + PopupMs]
    ensures IsMilestone(g.score + 1) ==>
      && r.milestoneText == MilestoneText(g.score + 1)
      && r.showMilestone && r.confetti
      && r.milestoneTimer == Some(g.now + BannerMs)
      && r.confettiTimer == Some(g.now + ConfettiMs)
    ensures !IsMilestone(g.score + 1) ==>
      && r.milestoneText == g.milestoneText
      && r.showMilestone == g.showMilestone && r.confetti == g.confetti
      && r.milestoneTimer == g.milestoneTimer && r.confettiTimer == g.confettiTimer
    ensures r.now == g.now
  {
    var newScore := g.score + 1;
    var g1 := g.(particles := MarkCaught(g.particles, id), score := newScore, popupAt := at,
                 showScore := true, showScoreDisplay := true);
    var g2 :=
      if IsMilestone(newScore) then
        g1.(milestoneText := MilestoneText(newScore), showMilestone := true, confetti := true,
            milestoneTimer := Some(g.now + BannerMs), confettiTimer := Some(g.now + ConfettiMs))
      else g1;
    g2.(scoreTimer := Some(g.now + DisplayMs), popupTimers := g.popupTimers + [g.now + PopupMs])
  }

  /** The clock moves to `to`: every timer due by then fires and clears its
      flag; the rest stay pending. */
  function Advance(g: Game, to: nat): (r: Game)
    requires g.now <= to
    ensures r.now == to
    ensures r.particles == g.particles && r.score == g.score && r.milestoneText == g.milestoneText
    ensures r.popupAt == g.popupAt
    ensures r.showScoreDisplay <==> g.showScoreDisplay && !Due(g.scoreTimer, to)
    ensures r.showMilestone <==> g.showMilestone && !Due(g.milestoneTimer, to)
    ensures r.confetti <==> g.confetti && !Due(g.confettiTimer, to)
    ensures r.showScore <==> g.showScore && !AnyDue(g.popupTimers, to)
    ensures TrackedAfter(r.scoreTimer, to) && TrackedAfter(r.milestoneTimer, to)
    ensures TrackedAfter(r.confettiTimer, to) && AllAfter(r.popupTimers, to)
    ensures Due(g.scoreTimer, to) ==> r.scoreTimer.None?
    ensures !Due(g.scoreTimer, to) ==> r.scoreTimer == g.scoreTimer
    ensures Due(g.milestoneTimer, to) ==> r.milestoneTimer.None?
    ensures !Due(g.milestoneTimer, to) ==> r.milestoneTimer == g.milestoneTimer
    ensures Due(g.confettiTimer, to) ==> r.confettiTimer.None?
    ensures !Due(g.confettiTimer, to) ==> r.confettiTimer == g.confettiTimer
    ensures forall d :: d in r.popupTimers <==> d in g.popupTimers && d > to
  {
    var pending := StillPending(g.popupTimers, to);
    assert forall i :: 0 <= i < |pending| ==> pending[i] in pending;
    g.(now := to,
       showScoreDisplay := g.showScoreDisplay && !Due(g.scoreTimer, to),
       scoreTimer := AfterTracked(g.scoreTimer, to),
       showMilestone := g.showMilestone && !Due(g.milestoneTimer, to),
       milestoneTimer := AfterTracked(g.milestoneTimer, to),
       confetti := g.confetti && !Due(g.confettiTimer, to),
       confettiTimer := AfterTracked(g.confettiTimer, to),
       showScore := g.showScore && !AnyDue(g.popupTimers, to),
       popupTimers := pending)
  }

  /** The unmount cleanup: the three tracked timers are cancelled; the "+1"
      timers were never stored, so they stay scheduled. */
  function Unmount(g: Game): (r: Game)
    ensures r.scoreTimer.None? && r.milestoneTimer.None? && r.confettiTimer.None?
    ensures r.popupTimers == g.popupTimers
    ensures r.(scoreTimer := g.scoreTimer, milestoneTimer := g.milestoneTimer,
               confettiTimer := g.confettiTimer) == g
  {
    g.(scoreTimer := None, milestoneTimer := None, confettiTimer := None)
  }

  /** Only visible particles are drawn, so only they can be clicked. */
  predicate Clickable(g: Game, id: nat) {
    exists i :: 0 <= i < |g.particles| && g.particles[i].id == id && g.particles[i].visible
  }

  datatype Event = Click(id: nat, at: Point) | Tick(to: nat)

  /** One event: a click on a drawn particle runs the handler, a click on
      anything else does not reach it; the clock never runs backwards. */
  function Step(g: Game, e: Event): Game {
    match e
    case Click(id, at) => if Clickable(g, id) then Catch(g, id, at) else g
    case Tick(to) => if g.now <= to then Advance(g, to) else g
  }

  function Run(g: Game, es: seq<Event>): Game
    decreases |es|
  {
    if |es| == 0 then g else Run(Step(g, es[0]), es[1..])
  }

  /** How many particles have been caught. */
  function CaughtCount(ps: seq<Particle>): (n: nat)
    ensures n <= |ps|
    decreases |ps|
  {
    if |ps| == 0 then 0
    else CaughtCount(ps[..|ps| - 1]) + (if ps[|ps| - 1].visible then 0 else 1)
  }

  /** Particle `i` has id `i`, as mounting makes them. */
  predicate WellIndexed(ps: seq<Particle>) {
    forall i :: 0 <= i < |ps| ==> ps[i].id == i
  }

  /** What every reachable state satisfies: ids are positions, the score is the
      number of caught particles, no timer is overdue, and the banner text is
      empty or belongs to a milestone already reached. */
  ghost predicate Inv(g: Game) {
    && WellIndexed(g.particles)
    && g.score == CaughtCount(g.particles)
    && TrackedAfter(g.scoreTimer, g.now)
    && TrackedAfter(g.milestoneTimer, g.now)
    && TrackedAfter(g.confettiTimer, g.now)
    && AllAfter(g.popupTimers, g.now)
    && (g.milestoneText == "" ||
        exists k :: IsMilestone(k) && k <= g.score && g.milestoneText == MilestoneText(k))
  }

  lemma MountEstablishesInv(count: nat, look: nat -> Look, now: nat)
    ensures Inv(Mount(count, look, now))
  {
    var ps := Mount(count, look, now).particles;
    AllVisibleNoneCaught(ps);
  }

  lemma {:induction false} AllVisibleNoneCaught(ps: seq<Particle>)
    requires forall i :: 0 <= i < |ps| ==> ps[i].visible
    ensures CaughtCount(ps) == 0
    decreases |ps|
  {
    if |ps| > 0 {
      AllVisibleNoneCaught(ps[..|ps| - 1]);
    }
  }

  /** Catching a visible particle of a well-indexed list raises the caught
      count by exactly one. */
  lemma {:induction false} CatchAddsOne(ps: seq<Particle>, id: nat)
    requires WellIndexed(ps)
    requires id < |ps| && ps[id].visible
    ensures CaughtCount(MarkCaught(ps, id)) == CaughtCount(ps) + 1
    decreases |ps|
  {
    var n := |ps|;
    var m := MarkCaught(ps, id);
    var pre := ps[..n - 1];
    assert m[..n - 1] == MarkCaught(pre, id);
    if id == n - 1 {
      assert MarkCaught(pre, id) == pre;
    } else {
      CatchAddsOne(pre, id);
    }
  }

  /** A click on a drawn particle keeps the invariant. */
  lemma ClickPreservesInv(g: Game, id: nat, at: Point)
    requires Inv(g) && Clickable(g, id)
    ensures Inv(Catch(g, id, at))
  {
    var i :| 0 <= i < |g.particles| && g.particles[i].id == id && g.particles[i].visible;
    CatchAddsOne(g.particles, id);
    var r := Catch(g, id, at);
    assert forall j :: 0 <= j < |r.popupTimers| ==> r.popupTimers[j] > r.now by {
      forall j | 0 <= j < |r.popupTimers|
        ensures r.popupTimers[j] > r.now
      {
        if j < |g.popupTimers| {
          assert r.popupTimers[j] == g.popupTimers[j];
        }
      }
    }
    if IsMilestone(g.score + 1) {
      assert r.milestoneText == MilestoneText(g.score + 1);
    } else if r.milestoneText != "" {
      var k :| IsMilestone(k) && k <= g.score && g.milestoneText == MilestoneText(k);
      assert k <= r.score;
    }
  }

  /** Moving the clock forward keeps the invariant. */
  lemma TickPreservesInv(g: Game, to: nat)
    requires Inv(g) && g.now <= to
    ensures Inv(Advance(g, to))
  {
    var r := Advance(g, to);
    if r.milestoneText != "" {
      var k :| IsMilestone(k) && k <= g.score && g.milestoneText == MilestoneText(k);
      assert k <= r.score;
    }
  }

  lemma StepPreservesInv(g: Game, e: Event)
    requires Inv(g)
    ensures Inv(Step(g, e))
  {
    match e
    case Click(id, at) =>
      if Clickable(g, id) {
        ClickPreservesInv(g, id, at);
      }
    case Tick(to) =>
      if g.now <= to {
        TickPreservesInv(g, to);
      }
  }

  lemma {:induction false} RunPreservesInv(g: Game, es: seq<Event>)
    requires Inv(g)
    ensures Inv(Run(g, es))
    ensures |Run(g, es).particles| == |g.particles|
    decreases |es|
  {
    if |es| > 0 {
      StepPreservesInv(g, es[0]);
      RunPreservesInv(Step(g, es[0]), es[1..]);
    }
  }

  /** In a reachable state a click on a drawn particle hides exactly that
      particle and adds one to the score; a click on anything else (an
      already caught particle) changes nothing at all. */
  lemma ClickHidesExactlyThatParticle(g: Game, id: nat, at: Point)
    requires Inv(g)
    ensures var r := Step(g, Click(id, at));
      && |r.particles| == |g.particles|
      && (Clickable(g, id) ==> r.score == g.score + 1)
      && (Clickable(g, id) ==> forall j :: 0 <= j < |g.particles| ==>
            r.particles[j].look == g.particles[j].look &&
            (r.particles[j].visible <==> g.particles[j].visible && j != id))
      && (!Clickable(g, id) ==> r == g)
  {
  }

  /** The score never exceeds the number of particles: with the default 90,
      the 100-point milestone and its text 'PALEONTOLOGIST!' are unreachable. */
  lemma DefaultGameNeverReachesHundred(look: nat -> Look, now: nat, es: seq<Event>)
    ensures Run(Mount(DefaultCount, look, now), es).score <= DefaultCount
    ensures Run(Mount(DefaultCount, look, now), es).milestoneText != MilestoneText(100)
  {
    var g0 := Mount(DefaultCount, look, now);
    MountEstablishesInv(DefaultCount, look, now);
    RunPreservesInv(g0, es);
    var g := Run(g0, es);
    if g.milestoneText != "" {
      var k :| IsMilestone(k) && k <= g.score && g.milestoneText == MilestoneText(k);
      MilestoneTextsDistinct(k, 100);
    }
  }

  /** Every click restarts the score display's timer: whatever was pending
      before, the display stays up for exactly 6000 ms after the latest click. */
  lemma DisplayHidesAfterLatestClick(g: Game, id: nat, at: Point, to: nat)
    requires g.now <= to
    ensures Advance(Catch(g, id, at), to).showScoreDisplay <==> to < g.now + DisplayMs
  {
  }

  /** A milestone click restarts the banner and confetti timers: the banner
      stays for exactly 3000 ms and the confetti for 4000 ms after it, whatever
      an earlier milestone had scheduled. */
  lemma MilestoneShowsForItsFullTime(g: Game, id: nat, at: Point, to: nat)
    requires IsMilestone(g.score + 1)
    requires g.now <= to
    ensures Advance(Catch(g, id, at), to).showMilestone <==> to < g.now + BannerMs
    ensures Advance(Catch(g, id, at), to).confetti <==> to < g.now + ConfettiMs
  {
  }

  /** The "+1" popup's timer is never cancelled: a click followed by a second
      one `delay` ms later (under 1000) has the second popup hidden by the
      first click's timer, only 1000 - delay ms after the second click. */
  lemma PopupCutShortBySecondClick(g: Game, id1: nat, id2: nat, at1: Point, at2: Point, delay: nat)
    requires 0 < delay < PopupMs
    ensures var g2 := Catch(Advance(Catch(g, id1, at1), g.now + delay), id2, at2);
      g2.showScore && !Advance(g2, g.now + PopupMs).showScore
  {
    var g1 := Advance(Catch(g, id1, at1), g.now + delay);
    var g2 := Catch(g1, id2, at2);
    assert g2.popupTimers[|g1.popupTimers|] == g.now + delay + PopupMs;
    var k := |Catch(g, id1, at1).popupTimers| - 1;
    assert Catch(g, id1, at1).popupTimers[k] == g.now + PopupMs;
    assert g.now + PopupMs in g1.popupTimers;
    var j :| 0 <= j < |g1.popupTimers| && g1.popupTimers[j] == g.now + PopupMs;
    assert g2.popupTimers[j] == g.now + PopupMs;
  }
}
