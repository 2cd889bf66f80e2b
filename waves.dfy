/**
 * The ripple list of the widget as values: a `Wave` record per ripple and
 * the one-frame update of `getSwarming` as a function `Frame` on the list,
 * with the properties the widget relies on proved about it.
 *
 * Index 0 is the nearest (youngest) wave, the last index the farthest.
 */
module Waves {
  import opened JavaNumerics

  /** The bits of an ARGB colour that hold red, green and blue. */
  const RGB_MASK: bv32 := 0x00FF_FFFF

  /** One ripple: its radius, its stroke width and its ARGB colour. */
  datatype Wave = Wave(radius: real, width: real, color: bv32)

  /**
   * The widget fields one frame reads: wave speed, spawn distance, start
   * and end stroke width, the radius of the wave area, the base colour and
   * the easing curve that turns the travelled fraction into opacity.
   */
  datatype Settings = Settings(
    speed: real,
    distance: real,
    startWidth: real,
    endWidth: real,
    maxRadius: real,
    color: bv32,
    interpolation: real -> real)

  /** A wave as `Wave.reset` leaves it: at the centre, start width, base colour. */
  function Fresh(startWidth: real, color: bv32): Wave
  {
    Wave(0.0, startWidth, color)
  }

  /** A new wave is due when there is none, or the nearest one has moved `distance` away. */
  predicate Spawns(ws: seq<Wave>, distance: real)
  {
    ws == [] || ws[0].radius >= distance
  }

  /** The list after the spawn step: `newcomer` in front when one is due. */
  function Staged(ws: seq<Wave>, newcomer: Wave, distance: real): (r: seq<Wave>)
    ensures r != []
    ensures |r| == |ws| + (if Spawns(ws, distance) then 1 else 0)
  {
    if Spawns(ws, distance) then [newcomer] + ws else ws
  }

  /** Where each wave of the staged list comes from: the newcomer in front, then the old waves in order. */
  lemma StagedAt(ws: seq<Wave>, newcomer: Wave, distance: real, j: int)
    requires 0 <= j < |Staged(ws, newcomer, distance)|
    ensures Spawns(ws, distance) ==>
      Staged(ws, newcomer, distance)[j] == if j == 0 then newcomer else ws[j - 1]
    ensures !Spawns(ws, distance) ==> Staged(ws, newcomer, distance)[j] == ws[j]
  {
  }

  /**
   * `color & 0x00FFFFFF | (alpha << 24)`: red, green and blue from `color`,
   * the opacity byte from the low byte of `alpha`.
   */
  function ReplaceAlpha(color: bv32, alpha: bv32): (c: bv32)
    ensures c & RGB_MASK == color & RGB_MASK
    ensures c >> 24 == alpha & 0xFF
  {
    (color & RGB_MASK) | (alpha << 24)
  }

  /** `(int) (255 * interpolation(factor))` as a 32-bit pattern. */
  function Alpha(s: Settings, factor: real): bv32
  {
    IntBits(FloatToInt(255.0 * s.interpolation(factor)))
  }

  /** The travelled fraction of the wave area at a given radius. */
  function Fraction(radius: real, s: Settings): real
    requires s.maxRadius > 0.0
  {
    radius / s.maxRadius
  }

  /** The stroke width at a given radius: linear from start width (centre) to end width (edge). */
  function WidthAt(radius: real, s: Settings): real
    requires s.maxRadius > 0.0
  {
    s.startWidth + Fraction(radius, s) * (s.endWidth - s.startWidth)
  }

  /** One frame of ageing for one wave. */
  function Aged(w: Wave, s: Settings): Wave
    requires s.maxRadius > 0.0
  {
    var radius := w.radius + s.speed;
    Wave(radius, WidthAt(radius, s), ReplaceAlpha(s.color, Alpha(s, Fraction(radius, s))))
  }

  /**
   * An aged wave has moved `speed` further out, has the width of its new
   * radius, keeps the base colour's red, green and blue, and takes its
   * opacity byte from the easing curve at the travelled fraction.
   */
  lemma AgedWave(w: Wave, s: Settings)
    requires s.maxRadius > 0.0
    ensures var a := Aged(w, s);
      && a.radius == w.radius + s.speed
      && a.width == WidthAt(a.radius, s)
      && a.color & RGB_MASK == s.color & RGB_MASK
      && a.color >> 24 == Alpha(s, Fraction(a.radius, s)) & 0xFF
  {
  }

  lemma AgedFields(w: Wave, s: Settings, radius: real, factor: real, increase: real, width: real,
                   colorFactor: real, color: bv32)
    requires s.maxRadius > 0.0
    requires radius == w.radius + s.speed
    requires factor == radius / s.maxRadius
    requires increase == s.endWidth - s.startWidth && width == s.startWidth + factor * increase
    requires colorFactor == s.interpolation(factor)
    requires color == ReplaceAlpha(s.color, IntBits(FloatToInt(255.0 * colorFactor)))
    ensures Aged(w, s) == Wave(radius, width, color)
  {
  }

  /** Every wave of the list aged by one frame, in place. */
  function AgedAll(ws: seq<Wave>, s: Settings): (r: seq<Wave>)
    requires s.maxRadius > 0.0
    ensures |r| == |ws|
    ensures forall j {:trigger Aged(ws[j], s)} :: 0 <= j < |ws| ==> r[j] == Aged(ws[j], s)
  {
    if ws == [] then [] else [Aged(ws[0], s)] + AgedAll(ws[1..], s)
  }

  /** The farthest wave leaves the list once it is beyond `maxRadius`. */
  function Retired(ws: seq<Wave>, maxRadius: real): (r: seq<Wave>)
    requires ws != []
    ensures |r| == |ws| || |r| == |ws| - 1
    ensures r == ws[..|r|]
    ensures |r| < |ws| <==> ws[|ws| - 1].radius > maxRadius
  {
    if ws[|ws| - 1].radius > maxRadius then ws[..|ws| - 1] else ws
  }

  /** One frame of `getSwarming`: spawn, age every wave, retire the farthest. */
  function Frame(ws: seq<Wave>, newcomer: Wave, s: Settings): seq<Wave>
    requires s.maxRadius > 0.0
  {
    Retired(AgedAll(Staged(ws, newcomer, s.distance), s), s.maxRadius)
  }

  // ---------------------------------------------------------------------
  // What one frame does to the list

  /**
   * The spawn rule and ageing together: when a wave is due the result is
   * the aged newcomer followed by the aged old waves in their order, and
   * otherwise it is the aged old waves in their order; nothing else enters.
   */
  lemma FrameSpawnRule(ws: seq<Wave>, newcomer: Wave, s: Settings)
    requires s.maxRadius > 0.0
    ensures var r := Frame(ws, newcomer, s);
      Spawns(ws, s.distance) ==>
        |ws| <= |r| <= |ws| + 1 &&
        (r != [] ==> r[0] == Aged(newcomer, s)) &&
        forall j :: 0 <= j < |r| - 1 ==> r[j + 1] == Aged(ws[j], s)
    ensures var r := Frame(ws, newcomer, s);
      !Spawns(ws, s.distance) ==>
        |ws| - 1 <= |r| <= |ws| &&
        forall j :: 0 <= j < |r| ==> r[j] == Aged(ws[j], s)
  {
    var staged := Staged(ws, newcomer, s.distance);
    var r := Frame(ws, newcomer, s);
    if Spawns(ws, s.distance) {
      forall j | 0 <= j < |r| - 1 ensures r[j + 1] == Aged(ws[j], s) {
        StagedAt(ws, newcomer, s.distance, j + 1);
      }
    }
  }

  /**
   * At most one wave leaves per frame, and only the farthest: the result
   * is a prefix of the aged staged list, one shorter exactly when the
   * farthest aged wave is beyond the wave area.
   */
  lemma FrameRetiresOnlyFarthest(ws: seq<Wave>, newcomer: Wave, s: Settings)
    requires s.maxRadius > 0.0
    ensures var staged := Staged(ws, newcomer, s.distance);
      var r := Frame(ws, newcomer, s);
      var last := Aged(staged[|staged| - 1], s);
      && (forall j :: 0 <= j < |r| ==> r[j] == Aged(staged[j], s))
      && (|r| == |staged| || |r| == |staged| - 1)
      && (|r| < |staged| <==> last.radius > s.maxRadius)
  {
  }

  /** The list length changes by at most one per frame. */
  lemma FrameLength(ws: seq<Wave>, newcomer: Wave, s: Settings)
    requires s.maxRadius > 0.0
    ensures |ws| - 1 <= |Frame(ws, newcomer, s)| <= |ws| + 1
  {
  }

  /**
   * With a wave due, the front of the frame is the aged newcomer, and the
   * frame is empty only when the newcomer was alone and left the area.
   */
  lemma FrameFront(ws: seq<Wave>, newcomer: Wave, s: Settings)
    requires s.maxRadius > 0.0
    requires Spawns(ws, s.distance)
    ensures var r := Frame(ws, newcomer, s);
      (r == [] <==> ws == [] && Aged(newcomer, s).radius > s.maxRadius) &&
      (r != [] ==> r[0] == Aged(newcomer, s))
  {
    var staged := Staged(ws, newcomer, s.distance);
    var aged := AgedAll(staged, s);
    StagedAt(ws, newcomer, s.distance, 0);
    assert aged[0] == Aged(newcomer, s);
    if ws == [] {
      assert staged == [newcomer];
    }
  }

  /**
   * A spawned wave starts at the centre with the start width and the base
   * colour, so after its first frame it sits at radius `speed`, with the
   * interpolated width and the base colour's red, green and blue. It is
   * gone again at once only when the list was empty and one step of
   * `speed` already leaves the wave area.
   */
  lemma FreshWaveAtFront(ws: seq<Wave>, s: Settings)
    requires s.maxRadius > 0.0
    requires Spawns(ws, s.distance)
    ensures var r := Frame(ws, Fresh(s.startWidth, s.color), s);
      (r == [] <==> ws == [] && s.speed > s.maxRadius) &&
      (r != [] ==>
        r[0].radius == s.speed &&
        r[0].width == WidthAt(s.speed, s) &&
        r[0].color & RGB_MASK == s.color & RGB_MASK)
  {
    var newcomer := Fresh(s.startWidth, s.color);
    FrameFront(ws, newcomer, s);
    AgedWave(newcomer, s);
  }

  /**
   * Every wave of the result has moved exactly `speed` further out, and
   * its width is the linear interpolation at its new radius.
   */
  lemma FrameAgesEveryWave(ws: seq<Wave>, newcomer: Wave, s: Settings)
    requires s.maxRadius > 0.0
    ensures var staged := Staged(ws, newcomer, s.distance);
      var r := Frame(ws, newcomer, s);
      forall j :: 0 <= j < |r| ==>
        r[j].radius == staged[j].radius + s.speed &&
        r[j].width == WidthAt(r[j].radius, s)
  {
    var staged := Staged(ws, newcomer, s.distance);
    var r := Frame(ws, newcomer, s);
    FrameRetiresOnlyFarthest(ws, newcomer, s);
    forall j | 0 <= j < |r|
      ensures r[j].radius == staged[j].radius + s.speed && r[j].width == WidthAt(r[j].radius, s)
    {
      assert r[j] == Aged(staged[j], s);
    }
  }

  /** After a frame every colour carries the base colour's red, green and blue bits. */
  lemma FrameKeepsRgb(ws: seq<Wave>, newcomer: Wave, s: Settings)
    requires s.maxRadius > 0.0
    ensures forall w :: w in Frame(ws, newcomer, s) ==> w.color & RGB_MASK == s.color & RGB_MASK
  {
    var staged := Staged(ws, newcomer, s.distance);
    var r := Frame(ws, newcomer, s);
    FrameRetiresOnlyFarthest(ws, newcomer, s);
    forall j | 0 <= j < |r| ensures r[j].color & RGB_MASK == s.color & RGB_MASK {
      AgedWave(staged[j], s);
    }
  }

  /**
   * The width stays between the start and the end width while a wave is
   * inside the wave area, and it is exactly those two at the centre and at
   * the edge.
   */
  lemma WidthBetweenEnds(radius: real, s: Settings)
    requires s.maxRadius > 0.0
    requires 0.0 <= radius <= s.maxRadius
    ensures var w := WidthAt(radius, s);
      (s.startWidth <= w <= s.endWidth) || (s.endWidth <= w <= s.startWidth)
    ensures radius == 0.0 ==> WidthAt(radius, s) == s.startWidth
    ensures radius == s.maxRadius ==> WidthAt(radius, s) == s.endWidth
  {
    var f := Fraction(radius, s);
    var d := s.endWidth - s.startWidth;
    assert f * s.maxRadius == radius;
    assert 0.0 <= f <= 1.0;
    ScaledBetween(f, d);
  }

  /** Scaling by a factor in [0, 1] keeps a value between zero and itself. */
  lemma ScaledBetween(f: real, d: real)
    requires 0.0 <= f <= 1.0
    ensures d >= 0.0 ==> 0.0 <= f * d <= d
    ensures d < 0.0 ==> d <= f * d <= 0.0
  {
    assert f * d - d == (f - 1.0) * d;
  }

  // ---------------------------------------------------------------------
  // Invariants of the list across frames

  /** Radii are non-negative and non-decreasing from nearest to farthest. */
  ghost predicate Ordered(ws: seq<Wave>)
  {
    && (forall j :: 0 <= j < |ws| ==> 0.0 <= ws[j].radius)
    && (forall j, k :: 0 <= j < k < |ws| ==> ws[j].radius <= ws[k].radius)
  }

  /** Neighbouring waves are at least `distance` apart. */
  ghost predicate Spaced(ws: seq<Wave>, distance: real)
  {
    forall j :: 0 <= j < |ws| - 1 ==> ws[j].radius + distance <= ws[j + 1].radius
  }

  /** No wave is beyond the wave area. */
  ghost predicate Within(ws: seq<Wave>, maxRadius: real)
  {
    forall j :: 0 <= j < |ws| ==> ws[j].radius <= maxRadius
  }

  /** The shape of the list the widget keeps: ordered, spaced, inside the area. */
  ghost predicate Steady(ws: seq<Wave>, s: Settings)
  {
    Ordered(ws) && Spaced(ws, s.distance) && Within(ws, s.maxRadius)
  }

  /** With a non-negative speed, a frame keeps the radii ordered. */
  lemma FrameKeepsOrder(ws: seq<Wave>, s: Settings)
    requires s.maxRadius > 0.0
    requires s.speed >= 0.0
    requires Ordered(ws)
    ensures Ordered(Frame(ws, Fresh(s.startWidth, s.color), s))
  {
    var staged := Staged(ws, Fresh(s.startWidth, s.color), s.distance);
    assert Ordered(staged) by {
      if Spawns(ws, s.distance) && ws != [] {
        forall j, k | 0 <= j < k < |staged| ensures staged[j].radius <= staged[k].radius {
          if j == 0 {
            StagedAt(ws, Fresh(s.startWidth, s.color), s.distance, k);
            assert ws[0].radius <= ws[k - 1].radius;
          } else {
            StagedAt(ws, Fresh(s.startWidth, s.color), s.distance, j);
            StagedAt(ws, Fresh(s.startWidth, s.color), s.distance, k);
          }
        }
      }
    }
    var r := Frame(ws, Fresh(s.startWidth, s.color), s);
    FrameRetiresOnlyFarthest(ws, Fresh(s.startWidth, s.color), s);
    FrameAgesEveryWave(ws, Fresh(s.startWidth, s.color), s);
    forall j | 0 <= j < |r| ensures 0.0 <= r[j].radius {
      assert r[j].radius == staged[j].radius + s.speed;
    }
    forall j, k | 0 <= j < k < |r| ensures r[j].radius <= r[k].radius {
      assert r[j].radius == staged[j].radius + s.speed;
      assert r[k].radius == staged[k].radius + s.speed;
    }
  }

  /** A new wave leaves a gap of the old nearest radius, so spacing survives a frame. */
  lemma FrameKeepsSpacing(ws: seq<Wave>, s: Settings)
    requires s.maxRadius > 0.0
    requires Spaced(ws, s.distance)
    ensures Spaced(Frame(ws, Fresh(s.startWidth, s.color), s), s.distance)
  {
    var staged := Staged(ws, Fresh(s.startWidth, s.color), s.distance);
    assert Spaced(staged, s.distance) by {
      if Spawns(ws, s.distance) && ws != [] {
        forall j | 0 <= j < |staged| - 1 ensures staged[j].radius + s.distance <= staged[j + 1].radius {
          if j > 0 {
            StagedAt(ws, Fresh(s.startWidth, s.color), s.distance, j);
            StagedAt(ws, Fresh(s.startWidth, s.color), s.distance, j + 1);
          }
        }
      }
    }
    FrameRetiresOnlyFarthest(ws, Fresh(s.startWidth, s.color), s);
  }

  /**
   * When waves are spawned at least one step apart (`speed <= distance`),
   * only the farthest wave can cross the edge in one frame, so retiring it
   * keeps every wave inside the wave area.
   */
  lemma FrameKeepsWithin(ws: seq<Wave>, s: Settings)
    requires s.maxRadius > 0.0
    requires 0.0 <= s.speed <= s.distance
    requires Spaced(ws, s.distance) && Within(ws, s.maxRadius)
    ensures Within(Frame(ws, Fresh(s.startWidth, s.color), s), s.maxRadius)
  {
    var newcomer := Fresh(s.startWidth, s.color);
    var staged := Staged(ws, newcomer, s.distance);
    var r := Frame(ws, newcomer, s);
    StagedWithin(ws, s);
    FrameRetiresOnlyFarthest(ws, newcomer, s);
    FrameAgesEveryWave(ws, newcomer, s);
    forall j | 0 <= j < |r| ensures r[j].radius <= s.maxRadius {
      RetiredWithin(staged, r, j, s);
    }
  }

  /** Spawning a fresh wave keeps a list spaced and inside the wave area. */
  lemma StagedWithin(ws: seq<Wave>, s: Settings)
    requires s.maxRadius > 0.0
    requires Spaced(ws, s.distance) && Within(ws, s.maxRadius)
    ensures var staged := Staged(ws, Fresh(s.startWidth, s.color), s.distance);
      Spaced(staged, s.distance) && Within(staged, s.maxRadius)
  {
    var staged := Staged(ws, Fresh(s.startWidth, s.color), s.distance);
    if Spawns(ws, s.distance) {
      forall j | 0 <= j < |staged| - 1 ensures staged[j].radius + s.distance <= staged[j + 1].radius {
        if j > 0 {
          StagedAt(ws, Fresh(s.startWidth, s.color), s.distance, j);
          StagedAt(ws, Fresh(s.startWidth, s.color), s.distance, j + 1);
        }
      }
      forall j | 0 <= j < |staged| ensures staged[j].radius <= s.maxRadius {
        StagedAt(ws, Fresh(s.startWidth, s.color), s.distance, j);
      }
    }
  }

  /** One wave of the result, given the staged list is spaced and inside the area. */
  lemma RetiredWithin(staged: seq<Wave>, r: seq<Wave>, j: int, s: Settings)
    requires 0.0 <= s.speed <= s.distance
    requires staged != []
    requires Spaced(staged, s.distance) && Within(staged, s.maxRadius)
    requires |r| == |staged| || |r| == |staged| - 1
    requires forall i :: 0 <= i < |r| ==> r[i].radius == staged[i].radius + s.speed
    requires |r| == |staged| ==> staged[|staged| - 1].radius + s.speed <= s.maxRadius
    requires 0 <= j < |r|
    ensures r[j].radius <= s.maxRadius
  {
    if j < |staged| - 1 {
      assert staged[j].radius + s.distance <= staged[j + 1].radius;
    }
  }

  /** The widget's list shape survives every frame when `0 <= speed <= distance`. */
  lemma FrameKeepsSteady(ws: seq<Wave>, s: Settings)
    requires s.maxRadius > 0.0
    requires 0.0 <= s.speed <= s.distance
    requires Steady(ws, s)
    ensures Steady(Frame(ws, Fresh(s.startWidth, s.color), s), s)
  {
    FrameKeepsOrder(ws, s);
    FrameKeepsSpacing(ws, s);
    FrameKeepsWithin(ws, s);
  }

  /**
   * A frame computed step by step, as `getSwarming` does it: stage, age the
   * staged list, then drop its last wave if that one is beyond the area.
   */
  lemma FrameOfPieces(ws: seq<Wave>, s: Settings, staged: seq<Wave>, aged: seq<Wave>, r: seq<Wave>)
    requires s.maxRadius > 0.0
    requires staged == Staged(ws, Fresh(s.startWidth, s.color), s.distance)
    requires aged == AgedAll(staged, s)
    requires aged != [] && r == if aged[|aged| - 1].radius > s.maxRadius then aged[..|aged| - 1] else aged
    ensures r == Frame(ws, Fresh(s.startWidth, s.color), s)
  {
  }

  /** In a spaced list the k-th wave is at least `k * distance` beyond the nearest. */
  lemma {:induction false} SpacedGrowth(ws: seq<Wave>, distance: real, k: nat)
    requires Spaced(ws, distance)
    requires k < |ws|
    ensures ws[0].radius + (k as real) * distance <= ws[k].radius
  {
    if k > 0 {
      SpacedGrowth(ws, distance, k - 1);
      assert ws[k - 1].radius + distance <= ws[k].radius;
    }
  }

  /**
   * The list stays bounded: a steady list with a positive spawn distance
   * holds at most `maxRadius / distance + 1` waves.
   */
  lemma SteadyCountBound(ws: seq<Wave>, s: Settings)
    requires s.distance > 0.0
    requires Steady(ws, s)
    ensures ((|ws| - 1) as real) * s.distance <= s.maxRadius || ws == []
  {
    if ws != [] {
      SpacedGrowth(ws, s.distance, |ws| - 1);
    }
  }
}
