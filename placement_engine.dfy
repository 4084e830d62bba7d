/** The placement algorithm of a word cloud, stated as functions: the spiral
    of candidate offsets, the first-fit search for one word, and the whole
    layout as a left fold over the words in input order. The imperative
    placement loop in module WordClouds is proved equal to `Layout`. */
module PlacementEngine {
  import opened Geometry

  datatype Option<T> = None | Some(value: T)

  /** One input word; its frequency is used directly as the font size. */
  datatype WordItem = WordItem(word: string, freq: real)

  /** The configuration given at construction. Only `spiralResolution` and
      `spiralLimit` influence placement. */
  datatype WordCloudConfig = WordCloudConfig(trace: bool, spiralResolution: real, spiralLimit: int, font: string)

  /** What the algorithm consults but does not define: text measurement on
      the drawing surface (text and font size to footprint) and the cosine
      and sine used by the spiral. */
  datatype Host = Host(measure: (string, real) -> Metric, cos: real -> real, sin: real -> real)

  /** The fixed context of one layout run: the canvas centre it is anchored
      at, the configuration and the host. */
  datatype Scene = Scene(middle: Point, config: WordCloudConfig, host: Host)

  /** The footprint of a word, measured at its frequency as font size. */
  function MetricOf(host: Host, w: WordItem): Metric {
    host.measure(w.word, w.freq)
  }

  /** The spiral angle at step `i`. */
  function Angle(config: WordCloudConfig, i: nat): real {
    config.spiralResolution * i as real
  }

  /** Offset of spiral step `i` from the centre: an Archimedean spiral whose
      angle grows by `spiralResolution` per step and whose radius is 1 + angle. */
  function Spiral(config: WordCloudConfig, host: Host, i: nat): Point {
    var angle := Angle(config, i);
    Point((1.0 + angle) * host.cos(angle), (1.0 + angle) * host.sin(angle))
  }

  /** The box tried for a word with footprint `m` at spiral step `j`. */
  function Candidate(s: Scene, j: nat, m: Metric): Placement {
    var offset := Spiral(s.config, s.host, j);
    Placement(offset.x + s.middle.x, offset.y + s.middle.y, m)
  }

  predicate FitsAt(placed: seq<Placement>, s: Scene, m: Metric, j: nat) {
    Fits(Candidate(s, j, m), placed)
  }

  /** The first spiral step in [from, spiralLimit) whose candidate collides
      with no placement made so far, or None when every such step collides. */
  function FirstFit(placed: seq<Placement>, s: Scene, m: Metric, from: nat): (r: Option<nat>)
    ensures r.Some? ==> from <= r.value < s.config.spiralLimit && FitsAt(placed, s, m, r.value)
    ensures r.Some? ==> forall j :: from <= j < r.value ==> !FitsAt(placed, s, m, j)
    ensures r.None? ==> forall j :: from <= j < s.config.spiralLimit ==> !FitsAt(placed, s, m, j)
    decreases s.config.spiralLimit - from
  {
    if from >= s.config.spiralLimit then None
    else if FitsAt(placed, s, m, from) then Some(from)
    else FirstFit(placed, s, m, from + 1)
  }

  /** Handles one word: appends its first collision-free candidate, or drops
      the word when the search finds none. */
  function PlaceWord(placed: seq<Placement>, s: Scene, w: WordItem): (r: seq<Placement>)
    ensures r == placed || (|r| == |placed| + 1 && r[..|placed|] == placed && Fits(r[|placed|], placed))
    ensures Disjoint(placed) ==> Disjoint(r)
  {
    var m := MetricOf(s.host, w);
    match FirstFit(placed, s, m, 0)
    case Some(j) =>
      DisjointAppend(placed, Candidate(s, j, m));
      placed + [Candidate(s, j, m)]
    case None => placed
  }

  /** The registry after handling every word in input order. */
  function Layout(words: seq<WordItem>, s: Scene): (placed: seq<Placement>)
    ensures |placed| <= |words|
    ensures Disjoint(placed)
    decreases |words|
  {
    if words == [] then []
    else PlaceWord(Layout(words[..|words| - 1], s), s, words[|words| - 1])
  }

  /** A word whose first fitting step is j gets the candidate at step j. */
  lemma PlaceWordAt(placed: seq<Placement>, s: Scene, w: WordItem, j: nat)
    requires j < s.config.spiralLimit && FitsAt(placed, s, MetricOf(s.host, w), j)
    requires forall t :: 0 <= t < j ==> !FitsAt(placed, s, MetricOf(s.host, w), t)
    ensures PlaceWord(placed, s, w) == placed + [Candidate(s, j, MetricOf(s.host, w))]
  {
    var r := FirstFit(placed, s, MetricOf(s.host, w), 0);
    assert r.Some? && r.value == j;
  }

  /** A word none of whose steps fits leaves the registry as it was. */
  lemma PlaceWordDropped(placed: seq<Placement>, s: Scene, w: WordItem)
    requires forall t :: 0 <= t < s.config.spiralLimit ==> !FitsAt(placed, s, MetricOf(s.host, w), t)
    ensures PlaceWord(placed, s, w) == placed
  {
    var r := FirstFit(placed, s, MetricOf(s.host, w), 0);
    assert r.None?;
  }

  /** Handling one more word extends the layout of the words before it. */
  lemma LayoutNext(words: seq<WordItem>, s: Scene, i: nat)
    requires i < |words|
    ensures Layout(words[..i + 1], s) == PlaceWord(Layout(words[..i], s), s, words[i])
  {
    assert words[..i + 1][..i] == words[..i];
  }

  /** For every registry entry, the index of the input word it belongs to. */
  ghost function Owners(words: seq<WordItem>, s: Scene): (owners: seq<nat>)
    ensures |owners| == |Layout(words, s)|
    ensures forall k :: 0 <= k < |owners| ==> owners[k] < |words|
    ensures forall p, q :: 0 <= p < q < |owners| ==> owners[p] < owners[q]
    decreases |words|
  {
    if words == [] then []
    else
      var ws := words[..|words| - 1];
      var m := MetricOf(s.host, words[|words| - 1]);
      if FirstFit(Layout(ws, s), s, m, 0).Some? then Owners(ws, s) + [|ws|] else Owners(ws, s)
  }

  /** The registry only grows: the layout of a prefix of the words is a
      prefix of the full layout, and each further word adds at most one entry. */
  lemma {:induction false} LayoutPrefix(words: seq<WordItem>, s: Scene, n: nat)
    requires n <= |words|
    ensures Layout(words[..n], s) <= Layout(words, s)
    ensures |Layout(words, s)| <= |Layout(words[..n], s)| + (|words| - n)
    decreases |words|
  {
    if n < |words| {
      var ws := words[..|words| - 1];
      assert ws[..n] == words[..n];
      LayoutPrefix(ws, s, n);
    } else {
      assert words[..n] == words;
    }
  }

  /** Layout and owners of a non-empty word list, one word at a time: both
      only ever grow by the last word's entry. */
  lemma LayoutLast(words: seq<WordItem>, s: Scene)
    requires words != []
    ensures var ws := words[..|words| - 1];
            Layout(ws, s) <= Layout(words, s) && Owners(ws, s) <= Owners(words, s) &&
            (|Layout(words, s)| == |Layout(ws, s)| + 1 ==>
               Owners(words, s)[|Layout(ws, s)|] == |ws| &&
               Layout(words, s)[|Layout(ws, s)|] ==
                 Candidate(s, FirstFit(Layout(ws, s), s, MetricOf(s.host, words[|ws|]), 0).value,
                           MetricOf(s.host, words[|ws|])) &&
               FirstFit(Layout(ws, s), s, MetricOf(s.host, words[|ws|]), 0).Some?)
  {
  }

  /** Entry k belongs to word i = Owners[k], and is that word's first-fit
      candidate against exactly the entries made before it: the registry up
      to k is the layout of the words before i. */
  lemma {:induction false} LayoutEntry(words: seq<WordItem>, s: Scene, k: nat)
    requires k < |Layout(words, s)|
    ensures var i := Owners(words, s)[k];
            var m := MetricOf(s.host, words[i]);
            var before := Layout(words[..i], s);
            before == Layout(words, s)[..k] &&
            FirstFit(before, s, m, 0).Some? &&
            Layout(words, s)[k] == Candidate(s, FirstFit(before, s, m, 0).value, m)
    decreases |words|
  {
    var ws := words[..|words| - 1];
    LayoutLast(words, s);
    var prev, all := Layout(ws, s), Layout(words, s);
    if k < |prev| {
      LayoutEntry(ws, s, k);
      var i := Owners(ws, s)[k];
      assert Owners(words, s)[k] == i;
      assert words[..i] == ws[..i] && words[i] == ws[i];
      assert all[..k] == prev[..k] && all[k] == prev[k];
    } else {
      assert words[..|ws|] == ws;
    }
  }

  /** A word is dropped, leaving no entry, exactly when every spiral step
      below the limit collides with some placement made before it. */
  lemma {:induction false} DroppedIffEveryStepCollides(words: seq<WordItem>, s: Scene, i: nat)
    requires i < |words|
    ensures i !in Owners(words, s) <==>
            forall j :: 0 <= j < s.config.spiralLimit ==>
              !FitsAt(Layout(words[..i], s), s, MetricOf(s.host, words[i]), j)
    decreases |words|
  {
    var ws := words[..|words| - 1];
    var m := MetricOf(s.host, words[|words| - 1]);
    if i < |ws| {
      DroppedIffEveryStepCollides(ws, s, i);
      assert words[..i] == ws[..i] && words[i] == ws[i];
      assert i in Owners(words, s) <==> i in Owners(ws, s);
    } else {
      assert words[..i] == ws;
      assert i !in Owners(ws, s);
      assert i in Owners(words, s) <==> FirstFit(Layout(ws, s), s, m, 0).Some?;
    }
  }

  /** With a non-positive step limit no word is ever placed. */
  lemma {:induction false} NoStepsNothingPlaced(words: seq<WordItem>, s: Scene)
    requires s.config.spiralLimit <= 0
    ensures Layout(words, s) == []
    decreases |words|
  {
    if words != [] {
      NoStepsNothingPlaced(words[..|words| - 1], s);
    }
  }

  /** The first word always lands on spiral step 0 when there is any step. */
  lemma FirstWordAtStepZero(words: seq<WordItem>, s: Scene)
    requires words != [] && s.config.spiralLimit > 0
    ensures |Layout(words, s)| >= 1 && Owners(words, s)[0] == 0
    ensures Layout(words, s)[0] == Candidate(s, 0, MetricOf(s.host, words[0]))
  {
    LayoutPrefix(words, s, 1);
    assert words[..1][..0] == [];
    assert FitsAt([], s, MetricOf(s.host, words[0]), 0);
    LayoutEntry(words, s, 0);
  }

  /** Two words with the same non-degenerate footprint cannot share a spiral
      step: the second one is pushed past the step the first one took. */
  lemma SecondIdenticalWordMovesOn(a: WordItem, b: WordItem, s: Scene)
    requires s.config.spiralLimit > 0
    requires MetricOf(s.host, a) == MetricOf(s.host, b)
    requires MetricOf(s.host, a).width > 0.0 && MetricOf(s.host, a).descent > 0.0
    ensures var m := MetricOf(s.host, a);
            var first := Candidate(s, 0, m);
            var second := FirstFit([first], s, m, 0);
            Layout([a, b], s)[0] == first &&
            (second.None? || second.value > 0) &&
            Layout([a, b], s) == [first] + (if second.Some? then [Candidate(s, second.value, m)] else [])
  {
    var m := MetricOf(s.host, a);
    FirstWordAtStepZero([a, b], s);
    assert [a, b][..1] == [a];
    assert Layout([a], s) == [Candidate(s, 0, m)] by {
      assert [a][..0] == [];
      assert FitsAt([], s, m, 0);
    }
    SelfOverlap(Candidate(s, 0, m));
    assert !FitsAt([Candidate(s, 0, m)], s, m, 0);
  }

  /** A single word on a 400 by 400 canvas goes to step 0, one pixel to the
      right of the centre (200, 200), when cos 0 = 1 and sin 0 = 0. */
  lemma SingleWordScenario(w: WordItem, config: WordCloudConfig, host: Host)
    requires config.spiralLimit == 100
    requires host.cos(0.0) == 1.0 && host.sin(0.0) == 0.0
    ensures Layout([w], Scene(Point(400.0 / 2.0, 400.0 / 2.0), config, host)) ==
            [Placement(201.0, 200.0, MetricOf(host, w))]
  {
    var s := Scene(Point(400.0 / 2.0, 400.0 / 2.0), config, host);
    assert [w][..0] == [];
    assert FitsAt([], s, MetricOf(host, w), 0);
    assert Spiral(config, host, 0) == Point(1.0, 0.0);
  }

  /** Scaling a unit direction by r gives a vector of squared length r * r. */
  lemma ScaledUnitLength(r: real, c: real, sn: real)
    requires c * c + sn * sn == 1.0
    ensures (r * c) * (r * c) + (r * sn) * (r * sn) == r * r
  {
    calc {
      (r * c) * (r * c) + (r * sn) * (r * sn);
      r * r * (c * c + sn * sn);
    }
  }

  /** Every spiral offset lies on the circle of radius 1 + angle around the
      centre, given the Pythagorean identity for the host's cosine and sine. */
  lemma SpiralRadius(config: WordCloudConfig, host: Host, i: nat)
    requires var a := Angle(config, i);
             host.cos(a) * host.cos(a) + host.sin(a) * host.sin(a) == 1.0
    ensures var a := Angle(config, i);
            var p := Spiral(config, host, i);
            p.x * p.x + p.y * p.y == (1.0 + a) * (1.0 + a)
  {
    var a := Angle(config, i);
    var p := Spiral(config, host, i);
    assert p == Point((1.0 + a) * host.cos(a), (1.0 + a) * host.sin(a));
    ScaledUnitLength(1.0 + a, host.cos(a), host.sin(a));
  }

  /** The spiral angle grows with the step when the resolution is not negative. */
  lemma AngleGrows(config: WordCloudConfig, i: nat, i': nat)
    requires config.spiralResolution >= 0.0 && i <= i'
    ensures 0.0 <= Angle(config, i) <= Angle(config, i')
  {
    assert Angle(config, i') - Angle(config, i) == config.spiralResolution * (i' - i) as real;
  }

  lemma SquareGrows(r: real, r': real)
    requires 0.0 <= r <= r'
    ensures r * r <= r' * r'
  {
    assert r * r <= r' * r;
    assert r' * r <= r' * r';
  }

  /** With a non-negative resolution the search moves outwards: a later step
      is never closer to the centre than an earlier one. */
  lemma SpiralMovesOutwards(config: WordCloudConfig, host: Host, i: nat, i': nat)
    requires config.spiralResolution >= 0.0 && i <= i'
    requires var a := Angle(config, i);
             host.cos(a) * host.cos(a) + host.sin(a) * host.sin(a) == 1.0
    requires var a := Angle(config, i');
             host.cos(a) * host.cos(a) + host.sin(a) * host.sin(a) == 1.0
    ensures var p, q := Spiral(config, host, i), Spiral(config, host, i');
            p.x * p.x + p.y * p.y <= q.x * q.x + q.y * q.y
  {
    SpiralRadius(config, host, i);
    SpiralRadius(config, host, i');
    AngleGrows(config, i, i');
    SquareGrows(1.0 + Angle(config, i), 1.0 + Angle(config, i'));
  }
}
