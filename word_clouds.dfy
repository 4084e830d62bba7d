/** The word-cloud object: it keeps the words, the configuration and the
    host it draws on, and `Start` lays the words out around the centre of a
    canvas of the given size. */
module WordClouds {
  import opened Geometry
  import opened PlacementEngine

  class WordClouds {
    const host: Host
    const words: seq<WordItem>
    const config: WordCloudConfig

    constructor (host: Host, words: seq<WordItem>, config: WordCloudConfig)
      ensures this.host == host && this.words == words && this.config == config
    {
      this.host := host;
      this.words := words;
      this.config := config;
    }

    /** Places the words one by one, in input order, and returns the accepted
        boxes in the order they were accepted; a word for which no spiral step
        is free is skipped. */
    method Start(width: real, height: real) returns (wordsPlaced: seq<Placement>)
      ensures wordsPlaced == Layout(words, Scene(Point(width / 2.0, height / 2.0), config, host))
      ensures Disjoint(wordsPlaced)
      ensures |wordsPlaced| <= |words|
    {
      var middlePoint := Point(width / 2.0, height / 2.0);
      ghost var s := Scene(middlePoint, config, host);
      wordsPlaced := [];
      var i := 0;
      while i < |words|
        invariant 0 <= i <= |words|
        invariant wordsPlaced == Layout(words[..i], s)
      {
        LayoutNext(words, s, i);
        wordsPlaced := PlaceOnSpiral(middlePoint, words[i], wordsPlaced);
        i := i + 1;
      }
      assert words[..i] == words;
    }

    /** Handles one word of `Start`: measures it, walks the spiral steps
        0 .. spiralLimit - 1 around `middlePoint`, checks each candidate box
        against every box accepted so far, and appends the first candidate
        that collides with none. */
    method PlaceOnSpiral(middlePoint: Point, word: WordItem, placed: seq<Placement>) returns (wordsPlaced: seq<Placement>)
      ensures wordsPlaced == PlaceWord(placed, Scene(middlePoint, config, host), word)
    {
      ghost var s := Scene(middlePoint, config, host);
      wordsPlaced := placed;
      var metric := host.measure(word.word, word.freq);
      var j := 0;
      while j < config.spiralLimit
        invariant 0 <= j
        invariant wordsPlaced == placed
        invariant forall t :: 0 <= t < j ==> !FitsAt(placed, s, metric, t)
      {
        var offset := Spiral(config, host, j);
        var x1 := offset.x + middlePoint.x;
        var y1 := offset.y + middlePoint.y;
        var x2 := x1 + metric.width;
        var y2 := y1 + metric.descent;
        ghost var candidate := Placement(x1, y1, metric);
        assert candidate == Candidate(s, j, metric);

        var canPlace := true;
        var k := 0;
        while k < |wordsPlaced|
          invariant 0 <= k <= |wordsPlaced|
          invariant forall t :: 0 <= t < k ==> !Overlaps(candidate, wordsPlaced[t])
        {
          var comparisonWord := wordsPlaced[k];
          var cx1 := comparisonWord.x;
          var cy1 := comparisonWord.y;
          var cx2 := comparisonWord.x + comparisonWord.metric.width;
          var cy2 := comparisonWord.y + comparisonWord.metric.descent;
          var collisionDetected := x1 < cx2 && x2 > cx1 && y1 < cy2 && y2 > cy1;
          if collisionDetected {
            assert Overlaps(candidate, wordsPlaced[k]);
            canPlace := false;
            break;
          }
          k := k + 1;
        }

        if canPlace {
          var placeX := middlePoint.x + offset.x;
          var placeY := middlePoint.y + offset.y;
          var measureResult := Placement(placeX, placeY, host.measure(word.word, word.freq));
          assert measureResult == candidate;
          PlaceWordAt(placed, s, word, j);
          wordsPlaced := wordsPlaced + [measureResult];
          return;
        }
        j := j + 1;
      }
      PlaceWordDropped(placed, s, word);
    }
  }
}
