/**
 * The `WaveView` widget's state and the methods that change it: the
 * per-frame update `Step` (`getSwarming`), the parameter setup, the reset
 * of the ripple list and the layout pass that sizes the wave area.
 * Drawing and scheduling belong to the host toolkit and are not modelled.
 */
module WaveViewWidget {
  import opened JavaNumerics
  import opened Waves

  datatype Option<T> = None | Some(value: T)

  /** A Java `long`. */
  newtype Long = x: int | -0x8000_0000_0000_0000 <= x < 0x8000_0000_0000_0000

  /** `Color.WHITE`: opaque white. */
  const WHITE: bv32 := 0xFFFF_FFFF

  /**
   * The radius of the wave area for a view of `width` by `height`: the
   * smaller of the two centre coordinates, each the Java int half of the
   * side. It is positive exactly when both sides are at least two long.
   */
  function WaveAreaRadius(width: int, height: int): (r: real)
    ensures r <= HalfTowardZero(width) as real && r <= HalfTowardZero(height) as real
    ensures r == HalfTowardZero(width) as real || r == HalfTowardZero(height) as real
    ensures r > 0.0 <==> width >= 2 && height >= 2
  {
    var x := HalfTowardZero(width) as real;
    var y := HalfTowardZero(height) as real;
    if x <= y then x else y
  }

  class WaveView {
    /** Milliseconds between two frames. */
    var time: Long
    /** The centre of the view. */
    var viewX: real
    var viewY: real
    /** Radius of the filled centre disc. */
    var centerRadius: real
    /** How far the nearest wave travels before the next one is spawned. */
    var waveDistance: real
    var waveStartWidth: real
    var waveEndWidth: real
    var waveSpeed: real
    /** The easing curve from travelled fraction to opacity. */
    const interpolator: real -> real
    /** Radius of the wave area. */
    var viewMaxRadius: real
    /** The ripples, nearest first. */
    var waves: seq<Wave>
    var waveColor: bv32
    /** The colour the centre disc is painted with. */
    var centerPaintColor: bv32
    /** The wave kept for reuse; nothing ever stores one. */
    var lastRemoveWave: Option<Wave>

    /** No wave is ever kept for reuse, so every spawned wave is fresh. */
    ghost predicate Valid()
      reads this`lastRemoveWave
    {
      lastRemoveWave == None
    }

    /** The fields one frame reads. */
    function FrameSettings(): Settings
      reads this`waveSpeed, this`waveDistance, this`waveStartWidth, this`waveEndWidth
      reads this`viewMaxRadius, this`waveColor
    {
      Settings(waveSpeed, waveDistance, waveStartWidth, waveEndWidth, viewMaxRadius, waveColor, interpolator)
    }

    /** The field defaults followed by `init`, which sets up the default ripple. */
    constructor (interpolator: real -> real)
      ensures Valid()
      ensures time == 25 && centerRadius == 20.0
      ensures viewX == 0.0 && viewY == 0.0 && viewMaxRadius == 0.0
      ensures waveSpeed == 0.8 && waveDistance == 30.0
      ensures waveStartWidth == 8.0 && waveEndWidth == 5.0
      ensures waveColor == WHITE && centerPaintColor == WHITE
      ensures waves == [] && this.interpolator == interpolator
    {
      time := 25;
      viewX, viewY := 0.0, 0.0;
      centerRadius := 20.0;
      waveDistance, waveStartWidth, waveEndWidth, waveSpeed := 0.0, 0.0, 0.0, 0.0;
      this.interpolator := interpolator;
      viewMaxRadius := 0.0;
      waves := [];
      waveColor := 0;
      centerPaintColor := 0xFF00_0000;
      lastRemoveWave := None;
      new;
      InitWaveInfo(0.8, 30.0, 8.0, 5.0, WHITE);
    }

    /** Stores the wave parameters and the colour, and clears the ripples. */
    method InitWaveInfo(speed: real, distance: real, startWidth: real, endWidth: real, color: bv32)
      modifies this`waveSpeed, this`waveDistance, this`waveStartWidth, this`waveEndWidth
      modifies this`waveColor, this`centerPaintColor, this`waves
      ensures waveSpeed == speed && waveDistance == distance
      ensures waveStartWidth == startWidth && waveEndWidth == endWidth
      ensures waveColor == color && centerPaintColor == color
      ensures waves == []
    {
      waveSpeed := speed;
      waveDistance := distance;
      waveStartWidth := startWidth;
      waveEndWidth := endWidth;
      SetWaveColor(color);
      ResetWave();
    }

    /** Empties the ripple list. */
    method ResetWave()
      modifies this`waves
      ensures waves == []
    {
      waves := [];
    }

    /** The ripple colour, which also paints the centre disc. */
    method SetWaveColor(color: bv32)
      modifies this`waveColor, this`centerPaintColor
      ensures waveColor == color && centerPaintColor == color
    {
      waveColor := color;
      centerPaintColor := color;
    }

    /**
     * The layout pass for a view of `width` by `height`: recentres, and
     * clears the ripples exactly when the wave area changes size.
     */
    method OnLayout(width: int, height: int)
      modifies this`viewX, this`viewY, this`viewMaxRadius, this`waves
      ensures viewX == HalfTowardZero(width) as real && viewY == HalfTowardZero(height) as real
      ensures viewMaxRadius == WaveAreaRadius(width, height)
      ensures old(viewMaxRadius) == viewMaxRadius ==> waves == old(waves)
      ensures old(viewMaxRadius) != viewMaxRadius ==> waves == []
    {
      viewX := HalfTowardZero(width) as real;
      viewY := HalfTowardZero(height) as real;
      var waveAreaRadius := if viewX <= viewY then viewX else viewY;
      if waveAreaRadius != viewMaxRadius {
        viewMaxRadius := waveAreaRadius;
        ResetWave();
      }
    }

    /**
     * One frame of ripple bookkeeping (`getSwarming`): the list is replaced
     * by its next frame. Nothing else changes; in particular no wave is
     * kept for reuse.
     */
    method Step()
      requires Valid()
      requires viewMaxRadius > 0.0
      modifies this`waves
      ensures waves == Frame(old(waves), Fresh(waveStartWidth, waveColor), FrameSettings())
      ensures Valid()
      ensures 0.0 <= waveSpeed <= waveDistance && Steady(old(waves), FrameSettings()) ==>
        Steady(waves, FrameSettings())
    {
      if 0.0 <= waveSpeed <= waveDistance && Steady(waves, FrameSettings()) {
        FrameKeepsSteady(waves, FrameSettings());
      }
      waves := NextFrame();
    }

    /**
     * The list `getSwarming` leaves behind, computed on a copy: spawn a
     * fresh wave in front when one is due, age every wave, and retire the
     * farthest one once it has left the wave area. The branch that would
     * reuse a stored wave is never taken, since none is ever stored.
     */
    method NextFrame() returns (list: seq<Wave>)
      requires Valid()
      requires viewMaxRadius > 0.0
      ensures list == Frame(waves, Fresh(waveStartWidth, waveColor), FrameSettings())
    {
      ghost var s := FrameSettings();
      list := waves;
      if list == [] || list[0].radius >= waveDistance {
        match lastRemoveWave {
          case Some(_) =>
            assert false;
          case None =>
        }
        var w := Wave(0.0, waveStartWidth, waveColor);
        list := [w] + list;
      }
      ghost var staged := list;
      assert staged == Staged(waves, Fresh(s.startWidth, s.color), s.distance);
      list := AgeWaves(list);
      ghost var aged := list;
      var size := |list|;
      var farthestWave := list[size - 1];
      if farthestWave.radius > viewMaxRadius {
        list := list[..size - 1];
      }
      FrameOfPieces(waves, s, staged, aged, list);
    }

    /**
     * The ageing loop of `getSwarming`: each wave travels `waveSpeed`
     * further, and its stroke width and opacity follow from the fraction of
     * the wave area it has crossed. The source updates the wave objects in
     * place; here the list of their values is rebuilt slot by slot.
     */
    method AgeWaves(staged: seq<Wave>) returns (list: seq<Wave>)
      requires viewMaxRadius > 0.0
      ensures list == AgedAll(staged, FrameSettings())
    {
      ghost var s := FrameSettings();
      list := staged;
      var waveWidthIncrease := waveEndWidth - waveStartWidth;
      var size := |list|;
      for i := 0 to size
        invariant |list| == size
        invariant forall j :: 0 <= j < i ==> list[j] == Aged(staged[j], s)
        invariant forall j :: i <= j < size ==> list[j] == staged[j]
      {
        var w := list[i];
        var radius := w.radius + waveSpeed;
        var factor := radius / viewMaxRadius;
        var width := waveStartWidth + factor * waveWidthIncrease;
        var colorFactor := interpolator(factor);
        var color := ReplaceAlpha(waveColor, IntBits(FloatToInt(255.0 * colorFactor)));
        AgedFields(staged[i], s, radius, factor, waveWidthIncrease, width, colorFactor, color);
        list := list[i := Wave(radius, width, color)];
      }
    }

    /** The radius of the filled centre disc. */
    method SetCenterViewRadius(radius: real)
      modifies this`centerRadius
      ensures centerRadius == radius
    {
      centerRadius := radius;
    }

    /** The delay between two frames, in milliseconds. */
    method SetRefreshTime(time: Long)
      modifies this`time
      ensures this.time == time
    {
      this.time := time;
    }
  }
}
