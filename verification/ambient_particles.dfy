/** The floating-dot background of the single-page site: fifteen dots, each
    replaced by a fresh one when clicked, a score, and milestone banners and
    confetti hidden again by timers that are never cancelled. Time is an
    abstract clock in whole milliseconds; `Math.random()` results are
    parameters. */
module AmbientParticles {
  import opened Optional
  import opened Timers

  const DotCount: nat := 15
  const CaughtMs: nat := 1000
  const BannerMs: nat := 3000

  const Milestones: seq<int> := [5, 10, 20, 50, 100]

  const Palette: seq<string> := ["#8b5cf6", "#6d28d9", "#4c1d95", "#7c3aed", "#5b21b6"]

  /** One result of `Math.random()`. */
  type Draw = r: real | 0.0 <= r < 1.0

  /** The six random numbers one call of `createParticle` consumes. */
  datatype Draws = Draws(x: Draw, y: Draw, size: Draw, speed: Draw, opacity: Draw, color: Draw)

  /** The container's `clientWidth` and `clientHeight`. */
  datatype Box = Box(width: nat, height: nat)

  datatype Dot = Dot(id: nat, x: real, y: real, size: real, speed: real, opacity: real, color: string)

  /** The component's state: the dots, its React state variables, the pending
      (never cancelled) timers, and the current time. */
  datatype Field = Field(
    dots: seq<Dot>,
    score: nat,
    showCaught: bool,
    showMilestone: bool,
    milestoneText: string,
    confetti: bool,
    caughtTimers: seq<nat>,
    bannerTimers: seq<nat>,
    now: nat)

  predicate IsMilestone(score: int) {
    score in Milestones
  }

  /** The banner text for a score: non-empty exactly at a milestone. */
  function MilestoneText(score: int): (r: string)
    ensures r != "" <==> IsMilestone(score)
  {
    if score == 5 then "NICE START!"
    else if score == 10 then "DOUBLE DIGITS!"
    else if score == 20 then "COLLECTOR!"
    else if score == 50 then "HALFWAY THERE!"
    else if score == 100 then "CHAMPION!"
    else ""
  }

  /** Different milestones never share a banner text. */
  lemma MilestoneTextsDistinct(a: int, b: int)
    requires IsMilestone(a) && IsMilestone(b) && a != b
    ensures MilestoneText(a) != MilestoneText(b)
  {
    if {a, b} == {10, 50} {
      assert MilestoneText(10)[0] != MilestoneText(50)[0];
    } else {
      assert |MilestoneText(a)| != |MilestoneText(b)|;
    }
  }

  /** `colors[Math.floor(Math.random() * colors.length)]`. */
  function PickColor(d: Draw): (c: string)
    ensures c in Palette
  {
    var k := (d * 5.0).Floor;
    assert 0 <= k < 5;
    Palette[k]
  }

  /** `Math.random() * extent`, which lies within `[0, extent]`. */
  function Scale(d: Draw, extent: real): (r: real)
    requires extent >= 0.0
    ensures 0.0 <= r <= extent
  {
    assert 0.0 <= d * extent by { MulNonNegative(d, extent); }
    assert extent - d * extent == (1.0 - d) * extent;
    assert 0.0 <= (1.0 - d) * extent by { MulNonNegative(1.0 - d, extent); }
    d * extent
  }

  lemma MulNonNegative(a: real, b: real)
    requires a >= 0.0 && b >= 0.0
    ensures a * b >= 0.0
  {
  }

  /** `createParticle(id)`: without a container, a dot at the origin with
      fixed size 20, speed 1 and opacity 0.8; with one, a dot placed inside it
      with size, speed and opacity drawn from fixed ranges. */
  function CreateParticle(id: nat, container: Option<Box>, d: Draws): (p: Dot)
    ensures p.id == id && p.color in Palette
    ensures container.None? ==>
      p.x == 0.0 && p.y == 0.0 && p.size == 20.0 && p.speed == 1.0 && p.opacity == 0.8
    ensures container.Some? ==>
      && 0.0 <= p.x <= container.value.width as real
      && 0.0 <= p.y <= container.value.height as real
      && 15.0 <= p.size <= 35.0
      && 0.2 <= p.speed <= 0.7
      && 0.3 <= p.opacity < 0.8
  {
    if container.None? then Dot(id, 0.0, 0.0, 20.0, 1.0, 0.8, PickColor(d.color))
    else
      var width: real := container.value.width as real;
      var height: real := container.value.height as real;
      Dot(id, Scale(d.x, width), Scale(d.y, height), d.size * 20.0 + 15.0, d.speed * 0.5 + 0.2, d.opacity * 0.5 + 0.3, PickColor(d.color))
  }

  /** The mount effect: with no container nothing is made; otherwise fifteen
      dots with ids 0..14, dot `i` made from draw `draw(i)`. */
  function Mount(container: Option<Box>, draw: nat -> Draws, now: nat): (f: Field)
    ensures container.None? ==> f.dots == []
    ensures container.Some? ==> |f.dots| == DotCount
    ensures forall i :: 0 <= i < |f.dots| ==> f.dots[i] == CreateParticle(i, container, draw(i))
    ensures f.score == 0 && !f.showCaught && !f.showMilestone && !f.confetti && f.milestoneText == ""
    ensures f.caughtTimers == [] && f.bannerTimers == [] && f.now == now
  {
    var dots := if container.None? then []
      else seq(DotCount, i requires 0 <= i < DotCount => CreateParticle(i, container, draw(i)));
    Field(dots, 0, false, false, "", false, [], [], now)
  }

  /** The dot update of a click: each dot with the clicked id is replaced by a
      fresh one with the same id; no other dot changes, none moves. */
  function Replace(ds: seq<Dot>, id: nat, container: Option<Box>, d: Draws): (r: seq<Dot>)
    ensures |r| == |ds|
    ensures forall i :: 0 <= i < |ds| ==>
      r[i] == (if ds[i].id == id then CreateParticle(id, container, d) else ds[i])
    ensures forall i :: 0 <= i < |ds| ==> r[i].id == ds[i].id
  {
    seq(|ds|, i requires 0 <= i < |ds| =>
      if ds[i].id == id then CreateParticle(id, container, d) else ds[i])
  }

  /** The click handler, at the current time. */
  function Catch(f: Field, id: nat, container: Option<Box>, d: Draws): (r: Field)
    ensures r.score == f.score + 1
    ensures r.dots == Replace(f.dots, id, container, d)
    ensures r.showCaught && r.caughtTimers == f.caughtTimers + [f.now + CaughtMs]
    ensures IsMilestone(f.score + 1) ==>
      && r.milestoneText == MilestoneText(f.score + 1)
      && r.showMilestone && r.confetti
      && r.bannerTimers == f.bannerTimers + [f.now + BannerMs]
    ensures !IsMilestone(f.score + 1) ==>
      && r.milestoneText == f.milestoneText
      && r.showMilestone == f.showMilestone && r.confetti == f.confetti
      && r.bannerTimers == f.bannerTimers
    ensures r.now == f.now
  {
    var newScore := f.score + 1;
    var f1 := f.(dots := Replace(f.dots, id, container, d), score := newScore, showCaught := true,
                 caughtTimers := f.caughtTimers + [f.now + CaughtMs]);
    if IsMilestone(newScore) then
      f1.(milestoneText := MilestoneText(newScore), showMilestone := true, confetti := true,
          bannerTimers := f.bannerTimers + [f.now + BannerMs])
    else f1
  }

  /** The clock moves to `to`: every due "+1" timer hides the caught message,
      every due banner timer hides both the banner and the confetti. */
  function Advance(f: Field, to: nat): (r: Field)
    requires f.now <= to
    ensures r.now == to
    ensures r.dots == f.dots && r.score == f.score && r.milestoneText == f.milestoneText
    ensures r.showCaught <==> f.showCaught && !AnyDue(f.caughtTimers, to)
    ensures r.showMilestone <==> f.showMilestone && !AnyDue(f.bannerTimers, to)
    ensures r.confetti <==> f.confetti && !AnyDue(f.bannerTimers, to)
    ensures forall t :: t in r.caughtTimers <==> t in f.caughtTimers && t > to
    ensures forall t :: t in r.bannerTimers <==> t in f.bannerTimers && t > to
  {
    f.(now := to,
       showCaught := f.showCaught && !AnyDue(f.caughtTimers, to),
       caughtTimers := StillPending(f.caughtTimers, to),
       showMilestone := f.showMilestone && !AnyDue(f.bannerTimers, to),
       confetti := f.confetti && !AnyDue(f.bannerTimers, to),
       bannerTimers := StillPending(f.bannerTimers, to))
  }

  /** Every dot is drawn and clickable; a click needs a dot with that id. */
  predicate Clickable(f: Field, id: nat) {
    exists i :: 0 <= i < |f.dots| && f.dots[i].id == id
  }

  datatype Event = Click(id: nat, container: Option<Box>, d: Draws) | Tick(to: nat)

  function Step(f: Field, e: Event): Field {
    match e
    case Click(id, container, d) => if Clickable(f, id) then Catch(f, id, container, d) else f
    case Tick(to) => if f.now <= to then Advance(f, to) else f
  }

  function Run(f: Field, es: seq<Event>): Field
    decreases |es|
  {
    if |es| == 0 then f else Run(Step(f, es[0]), es[1..])
  }

  /** Dot `i` has id `i`, as mounting makes them. */
  predicate WellIndexed(ds: seq<Dot>) {
    forall i :: 0 <= i < |ds| ==> ds[i].id == i
  }

  /** Replacing dots never changes which id sits where, nor how many there
      are: any run keeps the fifteen ids 0..14 of the mount. */
  lemma {:induction false} RunKeepsIds(f: Field, es: seq<Event>)
    requires WellIndexed(f.dots)
    ensures WellIndexed(Run(f, es).dots)
    ensures |Run(f, es).dots| == |f.dots|
    decreases |es|
  {
    if |es| > 0 {
      var g := Step(f, es[0]);
      assert WellIndexed(g.dots) && |g.dots| == |f.dots|;
      RunKeepsIds(g, es[1..]);
    }
  }

  /** Every accepted click adds exactly one to the score: after any run the
      score is the starting score plus the number of clicks on existing dots. */
  lemma {:induction false} ScoreCountsClicks(f: Field, es: seq<Event>)
    requires WellIndexed(f.dots)
    ensures Run(f, es).score == f.score + Clicks(|f.dots|, es)
    decreases |es|
  {
    if |es| > 0 {
      var g := Step(f, es[0]);
      assert |g.dots| == |f.dots| && WellIndexed(g.dots);
      if es[0].Click? && es[0].id < |f.dots| {
        assert f.dots[es[0].id].id == es[0].id;
      }
      ScoreCountsClicks(g, es[1..]);
    }
  }

  /** The clicks of `es` aimed at one of `count` dots with ids 0..count-1. */
  function Clicks(count: nat, es: seq<Event>): nat
    decreases |es|
  {
    if |es| == 0 then 0
    else (if es[0].Click? && es[0].id < count then 1 else 0) + Clicks(count, es[1..])
  }

  /** Banner timers accumulate: when a milestone is reached while an earlier
      banner's timer is still pending at `d`, that old timer hides the new
      banner and its confetti at `d`, before the new banner's own 3000 ms. */
  lemma EarlierBannerTimerCutsNewBanner(f: Field, id: nat, container: Option<Box>, dr: Draws, d: nat)
    requires IsMilestone(f.score + 1)
    requires d in f.bannerTimers && f.now <= d < f.now + BannerMs
    ensures Catch(f, id, container, dr).showMilestone
    ensures !Advance(Catch(f, id, container, dr), d).showMilestone
    ensures !Advance(Catch(f, id, container, dr), d).confetti
  {
    var r := Catch(f, id, container, dr);
    var i :| 0 <= i < |f.bannerTimers| && f.bannerTimers[i] == d;
    assert r.bannerTimers[i] == d;
  }

  /** With no earlier banner pending, a milestone banner and its confetti stay
      for exactly 3000 ms. */
  lemma LoneBannerShowsFullTime(f: Field, id: nat, container: Option<Box>, dr: Draws, to: nat)
    requires IsMilestone(f.score + 1)
    requires f.bannerTimers == [] && f.now <= to
    ensures Advance(Catch(f, id, container, dr), to).showMilestone <==> to < f.now + BannerMs
    ensures Advance(Catch(f, id, container, dr), to).confetti <==> to < f.now + BannerMs
  {
    var r := Catch(f, id, container, dr);
    assert r.bannerTimers == [f.now + BannerMs];
  }
}
