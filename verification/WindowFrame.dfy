/**
 Where a restored window goes: choosing a host monitor by overlap, clamping the
 frame to it, and the launch plan built on that. Lengths are reals.
 */
module WindowFrame {
  import opened Outcomes

  const MIN_WIDTH: real := 900.0
  const MIN_HEIGHT: real := 700.0
  const DEFAULT_WIDTH: real := 1200.0
  const DEFAULT_HEIGHT: real := 820.0

  datatype Rect = Rect(x: real, y: real, width: real, height: real)

  datatype WindowGeometry = WindowGeometry(width: real, height: real, x: real, y: real,
                                           extraWidth: real, extraHeight: real, scale: real, maximized: bool)

  datatype RestorePlan = RestorePlan(innerWidth: real, innerHeight: real, frameX: real, frameY: real, maximized: bool)

  datatype LaunchPlan = LaunchPlan(innerWidth: real, innerHeight: real, frame: Option<(real, real)>, maximized: bool)

  function Min(a: real, b: real): real {
    if a < b then a else b
  }

  function Max(a: real, b: real): real {
    if a < b then b else a
  }

  function Times(k: real, a: real): real {
    k * a
  }

  function Over(a: real, k: real): real
    requires k > 0.0
  {
    a / k
  }

  /** The length two intervals share; negative when they are apart. */
  function Shared(x: real, width: real, x': real, width': real): real {
    Min(x + width, x' + width') - Max(x, x')
  }

  function Area(w: real, h: real): real {
    w * h
  }

  function Overlap(f: Rect, m: Rect): real {
    var w, h := Shared(f.x, f.width, m.x, m.width), Shared(f.y, f.height, m.y, m.height);
    if w > 0.0 && h > 0.0 then Area(w, h) else 0.0
  }

  /** `max_by`: the last of the monitors with the greatest overlap. */
  function Best(f: Rect, monitors: seq<Rect>): Rect
    requires monitors != []
  {
    if |monitors| == 1 then monitors[0]
    else
      var best, last := Best(f, monitors[..|monitors| - 1]), monitors[|monitors| - 1];
      if Overlap(f, best) <= Overlap(f, last) then last else best
  }

  function HostMonitor(f: Rect, monitors: seq<Rect>): Option<Rect> {
    if monitors == [] then None
    else if Overlap(f, Best(f, monitors)) > 0.0 then Some(Best(f, monitors))
    else Some(monitors[0])
  }

  function Floored(saved: Rect, minWidth: real, minHeight: real): Rect {
    saved.(width := Max(saved.width, minWidth), height := Max(saved.height, minHeight))
  }

  function Confined(f: Rect, minWidth: real, minHeight: real, host: Rect): Rect {
    var width := Max(Min(f.width, host.width), minWidth);
    var height := Max(Min(f.height, host.height), minHeight);
    Rect(Max(Min(f.x, host.x + host.width - width), host.x),
         Max(Min(f.y, host.y + host.height - height), host.y), width, height)
  }

  function ClampFrame(saved: Rect, minWidth: real, minHeight: real, monitors: seq<Rect>): Rect {
    var f := Floored(saved, minWidth, minHeight);
    match HostMonitor(f, monitors)
    case None => f
    case Some(host) => Confined(f, minWidth, minHeight, host)
  }

  function FrameOf(g: WindowGeometry, k: real): Rect {
    Rect(Times(k, g.x), Times(k, g.y), Times(k, g.width + g.extraWidth), Times(k, g.height + g.extraHeight))
  }

  /** `space_scale` converts saved logical units into the space the monitors are in. */
  function PlanRestore(saved: WindowGeometry, monitors: seq<Rect>, spaceScale: real): RestorePlan
    requires spaceScale > 0.0
  {
    var k := spaceScale;
    var clamped := ClampFrame(FrameOf(saved, k), Times(k, MIN_WIDTH + saved.extraWidth),
                              Times(k, MIN_HEIGHT + saved.extraHeight), monitors);
    RestorePlan(Over(clamped.width, k) - saved.extraWidth, Over(clamped.height, k) - saved.extraHeight,
                clamped.x, clamped.y, saved.maximized)
  }

  function PlanLaunch(saved: Option<WindowGeometry>, monitors: seq<Rect>, spaceScale: real): LaunchPlan
    requires spaceScale > 0.0
  {
    match saved
    case None => LaunchPlan(DEFAULT_WIDTH, DEFAULT_HEIGHT, None, false)
    case Some(g) =>
      if monitors == [] then LaunchPlan(Max(g.width, MIN_WIDTH), Max(g.height, MIN_HEIGHT), None, g.maximized)
      else
        var plan := PlanRestore(g, monitors, spaceScale);
        LaunchPlan(plan.innerWidth, plan.innerHeight, Some((plan.frameX, plan.frameY)), plan.maximized)
  }

  // ----- the host -----

  lemma {:induction false} BestIsBest(f: Rect, monitors: seq<Rect>)
    requires monitors != []
    ensures Best(f, monitors) in monitors
    ensures forall i | 0 <= i < |monitors| :: Overlap(f, monitors[i]) <= Overlap(f, Best(f, monitors))
  {
    hide Overlap;
    if |monitors| > 1 {
      BestIsBest(f, monitors[..|monitors| - 1]);
    }
  }

  /** Among equals the last is chosen. */
  lemma {:induction false} BestIsLast(f: Rect, monitors: seq<Rect>) returns (i: nat)
    requires monitors != []
    ensures i < |monitors| && monitors[i] == Best(f, monitors)
    ensures forall j | i < j < |monitors| :: Overlap(f, monitors[j]) < Overlap(f, monitors[i])
  {
    hide Overlap;
    i := |monitors| - 1;
    if i > 0 && Best(f, monitors) != monitors[i] {
      i := BestIsLast(f, monitors[..i]);
    }
  }

  /** Over none of the monitors, a frame goes to the first. */
  lemma NoOverlapGoesFirst(f: Rect, monitors: seq<Rect>)
    requires monitors != [] && forall i | 0 <= i < |monitors| :: Overlap(f, monitors[i]) == 0.0
    ensures HostMonitor(f, monitors) == Some(monitors[0])
  {
    hide Overlap;
    BestIsBest(f, monitors);
  }

  predicate Inside(f: Rect, m: Rect) {
    && m.x <= f.x && f.x + f.width <= m.x + m.width
    && m.y <= f.y && f.y + f.height <= m.y + m.height
  }

  // ----- clamped inside, never below the floor -----

  /** The clamped frame is never below the floor, and lies wholly inside its host
      exactly when the host is at least the floor. */
  lemma ClampedInsideExactly(saved: Rect, minWidth: real, minHeight: real, monitors: seq<Rect>, host: Rect)
    requires HostMonitor(Floored(saved, minWidth, minHeight), monitors) == Some(host)
    ensures var c := ClampFrame(saved, minWidth, minHeight, monitors);
            && c.width >= minWidth && c.height >= minHeight
            && (Inside(c, host) <==> host.width >= minWidth && host.height >= minHeight)
  {
    hide HostMonitor;
  }

  // ----- idempotence -----

  lemma AreaAtMost(w: real, h: real, W: real, H: real)
    requires 0.0 < w <= W && 0.0 < h <= H
    ensures Area(w, h) <= Area(W, H)
    ensures Area(w, h) == Area(W, H) ==> w == W && h == H
  {
    assert w * h <= W * h <= W * H;
    if w < W {
      assert w * h < W * h;
    } else if h < H {
      assert W * h < W * H;
    }
  }

  /** A frame overlaps a monitor in at most its own area, and in all of it only
      when the monitor contains it. */
  lemma FullOverlapMeansInside(f: Rect, m: Rect)
    requires f.width > 0.0 && f.height > 0.0
    ensures Overlap(f, m) <= Area(f.width, f.height)
    ensures Overlap(f, m) == Area(f.width, f.height) <==> Inside(f, m)
    ensures Area(f.width, f.height) > 0.0
  {
    hide Area;
    var w, h := Shared(f.x, f.width, m.x, m.width), Shared(f.y, f.height, m.y, m.height);
    AreaPositive(f.width, f.height);
    if w > 0.0 && h > 0.0 {
      AreaAtMost(w, h, f.width, f.height);
    }
  }

  lemma AreaPositive(w: real, h: real)
    requires w > 0.0 && h > 0.0
    ensures Area(w, h) > 0.0
  {
  }

  /** The overlap is the area of the largest rectangle inside both, if there is one. */
  lemma OverlapIsLargest(f: Rect, m: Rect)
    ensures forall r: Rect | r.width > 0.0 && r.height > 0.0 && Inside(r, f) && Inside(r, m) ::
              Area(r.width, r.height) <= Overlap(f, m)
    ensures Overlap(f, m) >= 0.0
    ensures f.width > 0.0 && f.height > 0.0 && m.width > 0.0 && m.height > 0.0 && Overlap(f, m) > 0.0 ==>
              exists r: Rect :: r.width > 0.0 && r.height > 0.0 && Inside(r, f) && Inside(r, m)
                && Area(r.width, r.height) == Overlap(f, m)
  {
    hide Area;
    var w, h := Shared(f.x, f.width, m.x, m.width), Shared(f.y, f.height, m.y, m.height);
    forall r: Rect | r.width > 0.0 && r.height > 0.0 && Inside(r, f) && Inside(r, m)
      ensures Area(r.width, r.height) <= Overlap(f, m)
    {
      AreaAtMost(r.width, r.height, w, h);
    }
    if w > 0.0 && h > 0.0 {
      AreaPositive(w, h);
      var shared := Rect(Max(f.x, m.x), Max(f.y, m.y), w, h);
      assert Inside(shared, f) && Inside(shared, m);
    }
  }

  /** On one axis the clamp has nothing to do: the length is the host's at most, or
      already the floor, and the position is inside, or pinned to the host's edge. */
  predicate AxisStays(x: real, size: real, low: real, hostX: real, hostSize: real) {
    && (size <= hostSize || size == low)
    && hostX <= x && (x + size <= hostX + hostSize || x == hostX)
  }

  lemma AxisFixedExactly(x: real, size: real, low: real, hostX: real, hostSize: real)
    requires size >= low
    ensures Axis(x, size, low, hostX, hostSize) == (x, size) <==> AxisStays(x, size, low, hostX, hostSize)
  {
  }

  predicate FrameStays(f: Rect, minWidth: real, minHeight: real, host: Rect) {
    && AxisStays(f.x, f.width, minWidth, host.x, host.width)
    && AxisStays(f.y, f.height, minHeight, host.y, host.height)
  }

  /** A frame at or above the floor is left alone exactly when both axes stay. */
  lemma FixedExactly(f: Rect, minWidth: real, minHeight: real, monitors: seq<Rect>, host: Rect)
    requires f.width >= minWidth && f.height >= minHeight
    requires HostMonitor(f, monitors) == Some(host)
    ensures ClampFrame(f, minWidth, minHeight, monitors) == f <==> FrameStays(f, minWidth, minHeight, host)
  {
    hide HostMonitor, Axis, AxisStays, Confined;
    assert Floored(f, minWidth, minHeight) == f;
    ConfinedByAxes(f, minWidth, minHeight, host);
    AxisFixedExactly(f.x, f.width, minWidth, host.x, host.width);
    AxisFixedExactly(f.y, f.height, minHeight, host.y, host.height);
  }

  function Distance(a: real, b: real): real {
    if a < b then b - a else a - b
  }

  /** No place inside the host is nearer to the saved one, and a size between the floor
      and the host's is kept. */
  lemma ClampMovesLeast(saved: Rect, minWidth: real, minHeight: real, monitors: seq<Rect>, host: Rect, other: Rect)
    requires HostMonitor(Floored(saved, minWidth, minHeight), monitors) == Some(host)
    ensures var c := ClampFrame(saved, minWidth, minHeight, monitors);
            && (minWidth <= saved.width <= host.width ==> c.width == saved.width)
            && (minHeight <= saved.height <= host.height ==> c.height == saved.height)
            && (saved.width > host.width >= minWidth ==> c.width == host.width)
            && (saved.height > host.height >= minHeight ==> c.height == host.height)
            && (minWidth >= saved.width || minWidth >= host.width ==> c.width == minWidth)
            && (minHeight >= saved.height || minHeight >= host.height ==> c.height == minHeight)
            && (other.width == c.width && other.height == c.height && Inside(other, host) ==>
                  && Distance(saved.x, c.x) <= Distance(saved.x, other.x)
                  && Distance(saved.y, c.y) <= Distance(saved.y, other.y))
            && (c.width > host.width ==> c.x == host.x) && (c.height > host.height ==> c.y == host.y)
  {
    hide HostMonitor;
  }

  /** A second clamp changes nothing exactly when, on both axes, the once-clamped
      frame already suits the monitor it now overlaps most. */
  lemma SecondClampExactly(saved: Rect, minWidth: real, minHeight: real, monitors: seq<Rect>)
    ensures var once := ClampFrame(saved, minWidth, minHeight, monitors);
            var next := HostMonitor(once, monitors);
            var twice := ClampFrame(once, minWidth, minHeight, monitors);
            && (next.None? <==> monitors == [])
            && (twice == once <==> (next.Some? ==> FrameStays(once, minWidth, minHeight, next.value)))
  {
    hide FrameStays, Overlap, Best;
    var once := ClampFrame(saved, minWidth, minHeight, monitors);
    ClampedAboveFloor(saved, minWidth, minHeight, monitors);
    if monitors != [] {
      FixedExactly(once, minWidth, minHeight, monitors, HostMonitor(once, monitors).value);
    }
  }

  /** When the host is at least the floor, clamping again changes nothing, even if
      overlapping monitors make the second run pick another host. */
  lemma ClampIdempotent(saved: Rect, minWidth: real, minHeight: real, monitors: seq<Rect>, host: Rect)
    requires minWidth > 0.0 && minHeight > 0.0
    requires HostMonitor(Floored(saved, minWidth, minHeight), monitors) == Some(host)
    requires host.width >= minWidth && host.height >= minHeight
    ensures var once := ClampFrame(saved, minWidth, minHeight, monitors);
            ClampFrame(once, minWidth, minHeight, monitors) == once
  {
    hide Overlap, Best, Area;
    var once := ClampFrame(saved, minWidth, minHeight, monitors);
    ClampedInsideExactly(saved, minWidth, minHeight, monitors, host);
    assert Floored(once, minWidth, minHeight) == once;
    BestIsBest(Floored(saved, minWidth, minHeight), monitors);
    BestIsBest(once, monitors);
    var i :| 0 <= i < |monitors| && monitors[i] == host;
    var best := Best(once, monitors);
    FullOverlapMeansInside(once, host);
    FullOverlapMeansInside(once, best);
    assert Overlap(once, monitors[i]) <= Overlap(once, best);
    SecondClampExactly(saved, minWidth, minHeight, monitors);
  }

  /** Where the condition fails: below the floor the host is overflowed, and a second
      clamp moves the window to the monitor it overflows onto. */
  lemma SmallHostNotIdempotent()
    ensures var monitors := [Rect(0.0, 0.0, 100.0, 100.0), Rect(100.0, 0.0, 2000.0, 1000.0)];
            var once := ClampFrame(Rect(-850.0, -650.0, 900.0, 700.0), MIN_WIDTH, MIN_HEIGHT, monitors);
            && once == Rect(0.0, 0.0, 900.0, 700.0)
            && ClampFrame(once, MIN_WIDTH, MIN_HEIGHT, monitors) == Rect(100.0, 0.0, 900.0, 700.0)
  {
    var small, large := Rect(0.0, 0.0, 100.0, 100.0), Rect(100.0, 0.0, 2000.0, 1000.0);
    var monitors := [small, large];
    assert monitors[..1] == [small];
    var saved, once := Rect(-850.0, -650.0, 900.0, 700.0), Rect(0.0, 0.0, 900.0, 700.0);
    assert Overlap(saved, small) == 2500.0 && Overlap(saved, large) == 0.0;
    assert Overlap(once, small) == 10000.0 && Overlap(once, large) == 560000.0;
    assert Best(saved, [small]) == small && Best(once, [small]) == small;
  }

  // ----- scale -----

  lemma TimesPositive(k: real, a: real)
    requires k > 0.0 && a > 0.0
    ensures Times(k, a) > 0.0
  {
  }

  function Square(k: real): (s: real)
    requires k > 0.0
    ensures s > 0.0
  {
    hide Times;
    TimesPositive(k, k);
    Times(k, k)
  }

  function ScaledRect(r: Rect, k: real): Rect {
    Rect(Times(k, r.x), Times(k, r.y), Times(k, r.width), Times(k, r.height))
  }

  function ScaledRects(rs: seq<Rect>, k: real): (scaled: seq<Rect>)
    ensures |scaled| == |rs|
  {
    seq(|rs|, i requires 0 <= i < |rs| => ScaledRect(rs[i], k))
  }

  lemma TimesOrder(k: real, a: real, b: real)
    requires k > 0.0
    ensures Times(k, a) < Times(k, b) <==> a < b
    ensures Times(k, a) <= Times(k, b) <==> a <= b
  {
    if a < b {
      assert k * (b - a) > 0.0;
    } else if a > b {
      assert k * (a - b) > 0.0;
    }
  }

  lemma TimesSum(k: real, a: real, b: real)
    ensures Times(k, a + b) == Times(k, a) + Times(k, b)
    ensures Times(k, a - b) == Times(k, a) - Times(k, b)
    ensures Times(k, 0.0) == 0.0
  {
  }

  lemma TimesMinMax(k: real, a: real, b: real)
    requires k > 0.0
    ensures Min(Times(k, a), Times(k, b)) == Times(k, Min(a, b))
    ensures Max(Times(k, a), Times(k, b)) == Times(k, Max(a, b))
  {
    TimesOrder(k, a, b);
  }

  lemma SharedScales(k: real, x: real, w: real, x': real, w': real)
    requires k > 0.0
    ensures Shared(Times(k, x), Times(k, w), Times(k, x'), Times(k, w')) == Times(k, Shared(x, w, x', w'))
  {
    hide Times;
    TimesSum(k, x, w);
    TimesSum(k, x', w');
    TimesMinMax(k, x + w, x' + w');
    TimesMinMax(k, x, x');
    TimesSum(k, Min(x + w, x' + w'), Max(x, x'));
  }

  lemma AreaScales(k: real, w: real, h: real)
    requires k > 0.0
    ensures Area(Times(k, w), Times(k, h)) == Times(Square(k), Area(w, h))
  {
    assert (k * w) * (k * h) == (k * k) * (w * h);
  }

  lemma OverlapScales(k: real, f: Rect, m: Rect)
    requires k > 0.0
    ensures Overlap(ScaledRect(f, k), ScaledRect(m, k)) == Times(Square(k), Overlap(f, m))
  {
    hide Times, Area, Shared, Square;
    var w, h := Shared(f.x, f.width, m.x, m.width), Shared(f.y, f.height, m.y, m.height);
    SharedScales(k, f.x, f.width, m.x, m.width);
    SharedScales(k, f.y, f.height, m.y, m.height);
    TimesOrder(k, 0.0, w);
    TimesOrder(k, 0.0, h);
    TimesSum(k, 0.0, 0.0);
    TimesSum(Square(k), 0.0, 0.0);
    AreaScales(k, w, h);
  }

  lemma {:induction false} BestScales(k: real, f: Rect, monitors: seq<Rect>)
    requires k > 0.0 && monitors != []
    ensures Best(ScaledRect(f, k), ScaledRects(monitors, k)) == ScaledRect(Best(f, monitors), k)
  {
    hide Times, Overlap, ScaledRect, Square;
    var n := |monitors| - 1;
    if n > 0 {
      BestScales(k, f, monitors[..n]);
      assert ScaledRects(monitors, k)[..n] == ScaledRects(monitors[..n], k);
      var best, last := Best(f, monitors[..n]), monitors[n];
      OverlapScales(k, f, best);
      OverlapScales(k, f, last);
      TimesOrder(Square(k), Overlap(f, best), Overlap(f, last));
    }
  }

  lemma HostScales(k: real, f: Rect, monitors: seq<Rect>)
    requires k > 0.0
    ensures HostMonitor(ScaledRect(f, k), ScaledRects(monitors, k))
         == match HostMonitor(f, monitors)
            case None => None
            case Some(host) => Some(ScaledRect(host, k))
  {
    hide Times, Overlap, ScaledRect, Best, Square;
    if monitors != [] {
      BestScales(k, f, monitors);
      var best := Best(f, monitors);
      OverlapScales(k, f, best);
      TimesOrder(Square(k), 0.0, Overlap(f, best));
      TimesSum(Square(k), 0.0, 0.0);
    }
  }

  /** One axis of the clamp. */
  function Axis(x: real, size: real, low: real, hostX: real, hostSize: real): (real, real) {
    var s := Max(Min(size, hostSize), low);
    (Max(Min(x, hostX + hostSize - s), hostX), s)
  }

  lemma AxisScales(k: real, x: real, size: real, low: real, hostX: real, hostSize: real)
    requires k > 0.0
    ensures var (x', s') := Axis(Times(k, x), Times(k, size), Times(k, low), Times(k, hostX), Times(k, hostSize));
            var (x1, s1) := Axis(x, size, low, hostX, hostSize);
            x' == Times(k, x1) && s' == Times(k, s1)
  {
    hide Times;
    TimesMinMax(k, size, hostSize);
    TimesMinMax(k, Min(size, hostSize), low);
    var s := Max(Min(size, hostSize), low);
    TimesSum(k, hostX, hostSize);
    TimesSum(k, hostX + hostSize, s);
    TimesMinMax(k, x, hostX + hostSize - s);
    TimesMinMax(k, Min(x, hostX + hostSize - s), hostX);
  }

  lemma ConfinedByAxes(f: Rect, minWidth: real, minHeight: real, host: Rect)
    ensures var c := Confined(f, minWidth, minHeight, host);
            && Axis(f.x, f.width, minWidth, host.x, host.width) == (c.x, c.width)
            && Axis(f.y, f.height, minHeight, host.y, host.height) == (c.y, c.height)
  {
  }

  lemma ConfinedScales(k: real, f: Rect, minWidth: real, minHeight: real, host: Rect)
    requires k > 0.0
    ensures Confined(ScaledRect(f, k), Times(k, minWidth), Times(k, minHeight), ScaledRect(host, k))
         == ScaledRect(Confined(f, minWidth, minHeight, host), k)
  {
    hide Times, Confined, Axis;
    ConfinedByAxes(f, minWidth, minHeight, host);
    ConfinedByAxes(ScaledRect(f, k), Times(k, minWidth), Times(k, minHeight), ScaledRect(host, k));
    AxisScales(k, f.x, f.width, minWidth, host.x, host.width);
    AxisScales(k, f.y, f.height, minHeight, host.y, host.height);
  }

  lemma ClampScales(k: real, saved: Rect, minWidth: real, minHeight: real, monitors: seq<Rect>)
    requires k > 0.0
    ensures ClampFrame(ScaledRect(saved, k), Times(k, minWidth), Times(k, minHeight), ScaledRects(monitors, k))
         == ScaledRect(ClampFrame(saved, minWidth, minHeight, monitors), k)
  {
    hide Times, Confined, HostMonitor;
    var f := Floored(saved, minWidth, minHeight);
    TimesMinMax(k, saved.width, minWidth);
    TimesMinMax(k, saved.height, minHeight);
    assert Floored(ScaledRect(saved, k), Times(k, minWidth), Times(k, minHeight)) == ScaledRect(f, k);
    HostScales(k, f, monitors);
    var host := HostMonitor(f, monitors);
    if host.Some? {
      ConfinedScales(k, f, minWidth, minHeight, host.value);
    }
  }

  lemma TimesTwice(k: real, s: real, a: real)
    requires k > 0.0 && s > 0.0
    ensures Times(k, s) > 0.0
    ensures Times(Times(k, s), a) == Times(k, Times(s, a))
    ensures Over(Times(k, a), Times(k, s)) == Over(a, s)
  {
    var q := a / s;
    assert q * s == a;
    assert q * (k * s) == k * a;
  }

  /** Monitors and space scale scaled together give the same inner size, the same
      flag, and a frame origin scaled by the same factor. */
  lemma PlanCommutesWithScale(saved: WindowGeometry, monitors: seq<Rect>, spaceScale: real, k: real)
    requires spaceScale > 0.0 && k > 0.0
    ensures Times(k, spaceScale) > 0.0
    ensures var plan := PlanRestore(saved, monitors, spaceScale);
            PlanRestore(saved, ScaledRects(monitors, k), Times(k, spaceScale))
              == plan.(frameX := Times(k, plan.frameX), frameY := Times(k, plan.frameY))
  {
    hide Times, Over, ClampFrame, ScaledRects;
    var s := spaceScale;
    TimesTwice(k, s, saved.x);
    TimesTwice(k, s, saved.y);
    TimesTwice(k, s, saved.width + saved.extraWidth);
    TimesTwice(k, s, saved.height + saved.extraHeight);
    TimesTwice(k, s, MIN_WIDTH + saved.extraWidth);
    TimesTwice(k, s, MIN_HEIGHT + saved.extraHeight);
    var minWidth, minHeight := Times(s, MIN_WIDTH + saved.extraWidth), Times(s, MIN_HEIGHT + saved.extraHeight);
    ClampScales(k, FrameOf(saved, s), minWidth, minHeight, monitors);
    var clamped := ClampFrame(FrameOf(saved, s), minWidth, minHeight, monitors);
    TimesTwice(k, s, clamped.width);
    TimesTwice(k, s, clamped.height);
  }

  // ----- the launch -----

  lemma OverIsOne(k: real, a: real, size: real)
    requires k > 0.0
    ensures Over(a, k) == size <==> a == k * size
  {
    var q := a / k;
    assert q * k == a;
    if a == k * size {
      assert (q - size) * k == 0.0;
    }
  }

  /** A window saved at or above the floor comes back with the size it had inside its
      decorations, at its place, exactly when its decorated frame suits its monitor. */
  lemma SavedComesBackExactly(g: WindowGeometry, monitors: seq<Rect>, k: real, host: Rect)
    requires k > 0.0 && g.width >= 900.0 && g.height >= 700.0
    requires HostMonitor(Rect(k * g.x, k * g.y, k * (g.width + g.extraWidth), k * (g.height + g.extraHeight)), monitors)
               == Some(host)
    ensures var frame := Rect(k * g.x, k * g.y, k * (g.width + g.extraWidth), k * (g.height + g.extraHeight));
            var back := PlanRestore(g, monitors, k) == RestorePlan(g.width, g.height, k * g.x, k * g.y, g.maximized);
            back == FrameStays(frame, k * (900.0 + g.extraWidth), k * (700.0 + g.extraHeight), host)
  {
    hide HostMonitor, ClampFrame, FrameStays, Over;
    var frame := Rect(k * g.x, k * g.y, k * (g.width + g.extraWidth), k * (g.height + g.extraHeight));
    var minWidth, minHeight := k * (900.0 + g.extraWidth), k * (700.0 + g.extraHeight);
    assert Times(k, MIN_WIDTH + g.extraWidth) == minWidth && Times(k, MIN_HEIGHT + g.extraHeight) == minHeight;
    assert FrameOf(g, k) == frame;
    TimesOrder(k, 900.0 + g.extraWidth, g.width + g.extraWidth);
    TimesOrder(k, 700.0 + g.extraHeight, g.height + g.extraHeight);
    FixedExactly(frame, minWidth, minHeight, monitors, host);
    var c := ClampFrame(frame, minWidth, minHeight, monitors);
    OverIsOne(k, c.width, g.width + g.extraWidth);
    OverIsOne(k, c.height, g.height + g.extraHeight);
  }

  /** In particular, inside its monitor it comes back as it was saved. */
  lemma SavedComesBack(g: WindowGeometry, monitors: seq<Rect>, k: real, host: Rect)
    requires k > 0.0 && g.width >= 900.0 && g.height >= 700.0
    requires var frame := Rect(k * g.x, k * g.y, k * (g.width + g.extraWidth), k * (g.height + g.extraHeight));
             HostMonitor(frame, monitors) == Some(host) && Inside(frame, host)
    ensures PlanLaunch(Some(g), monitors, k) == LaunchPlan(g.width, g.height, Some((k * g.x, k * g.y)), g.maximized)
  {
    hide HostMonitor, PlanRestore;
    assert monitors != [] by { NoMonitorsNoHost(g, monitors, k); }
    SavedComesBackExactly(g, monitors, k, host);
  }

  lemma NoMonitorsNoHost(g: WindowGeometry, monitors: seq<Rect>, k: real)
    ensures monitors == [] ==> forall f :: HostMonitor(f, monitors) == None
  {
  }

  /** A first launch, and one with no monitor to place the window on. */
  lemma UnplacedLaunch(g: WindowGeometry, monitors: seq<Rect>, k: real)
    requires k > 0.0
    ensures PlanLaunch(None, monitors, k) == LaunchPlan(1200.0, 820.0, None, false)
    ensures PlanLaunch(Some(g), [], k)
         == LaunchPlan(if g.width < 900.0 then 900.0 else g.width, if g.height < 700.0 then 700.0 else g.height,
                       None, g.maximized)
  {
  }

  lemma OverTimes(clamped: real, size: real, k: real)
    requires k > 0.0 && clamped >= Times(k, size)
    ensures Over(clamped, k) >= size
  {
    var q := clamped / k;
    assert q * k == clamped;
    assert (q - size) * k >= 0.0;
  }

  lemma ClampedAboveFloor(saved: Rect, minWidth: real, minHeight: real, monitors: seq<Rect>)
    ensures var c := ClampFrame(saved, minWidth, minHeight, monitors);
            c.width >= minWidth && c.height >= minHeight
  {
    hide HostMonitor;
  }

  /** However the last session ended and whatever the monitors are now, a launch
      is never below the floor, and it places the window only when it has both a
      saved state and a monitor to validate it against. */
  lemma LaunchIsSafe(saved: Option<WindowGeometry>, monitors: seq<Rect>, spaceScale: real)
    requires spaceScale > 0.0
    ensures var plan := PlanLaunch(saved, monitors, spaceScale);
            && plan.innerWidth >= MIN_WIDTH && plan.innerHeight >= MIN_HEIGHT
            && (plan.frame.Some? <==> saved.Some? && monitors != [])
            && (plan.maximized <==> saved.Some? && saved.value.maximized)
  {
    hide ClampFrame, Times, Over;
    if saved.Some? && monitors != [] {
      var g, k := saved.value, spaceScale;
      var minWidth, minHeight := Times(k, MIN_WIDTH + g.extraWidth), Times(k, MIN_HEIGHT + g.extraHeight);
      ClampedAboveFloor(FrameOf(g, k), minWidth, minHeight, monitors);
      var clamped := ClampFrame(FrameOf(g, k), minWidth, minHeight, monitors);
      OverTimes(clamped.width, MIN_WIDTH + g.extraWidth, k);
      OverTimes(clamped.height, MIN_HEIGHT + g.extraHeight, k);
    }
  }
}
