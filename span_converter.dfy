/** The conversion of "easy format" training data (a text and one tag per
    word) into character-offset entity spans, as `create_annotations` does it. */
module SpanConverter {
  import opened PyStr

  /** The tag of a word that belongs to no entity. */
  const Outside: string := "O"

  /** An entity span `[start, end, tag]`: character offsets, `end` exclusive. */
  datatype Entity = Entity(start: nat, end: nat, tag: string)

  /** An input example: a text and the tags of its words, in order. */
  datatype TaggedExample = TaggedExample(text: string, tags: seq<string>)

  /** An output example: `(text, {"entities": entities})`. */
  datatype Annotation = Annotation(text: string, entities: seq<Entity>)

  /** The `IndexError` raised by `words[i]` when example `example` has a tag at
      `position` but its text has only `position` words. */
  datatype ConversionError = IndexError(example: nat, position: nat)

  datatype Result<T> = Ok(value: T) | Err(error: ConversionError)

  /** The start offset computed for the next word from the words consumed
      before it: the length of their single-space join, plus one. */
  function StartOffset(consumed: seq<string>): nat {
    |JoinWords(consumed)| + 1
  }

  /** The offset at which word `i` really stands in `" ".join(words)`. */
  function WordOffset(words: seq<string>, i: nat): nat
    requires i <= |words|
  {
    TotalLength(words[..i]) + i
  }

  /** The positions whose tag is not `Outside`, in increasing order. */
  function TaggedPositions(tags: seq<string>): (ps: seq<nat>)
    ensures forall j :: 0 <= j < |ps| ==> ps[j] < |tags| && tags[ps[j]] != Outside
    ensures forall j, j' :: 0 <= j < j' < |ps| ==> ps[j] < ps[j']
    ensures forall i :: 0 <= i < |tags| && tags[i] != Outside ==> i in ps
  {
    if tags == [] then []
    else
      var i := |tags| - 1;
      TaggedPositions(tags[..i]) + (if tags[i] != Outside then [i] else [])
  }

  /** The entities emitted for the tags of one example, given its words. */
  function Entities(words: seq<string>, tags: seq<string>): seq<Entity>
    requires |tags| <= |words|
  {
    if tags == [] then []
    else
      var i := |tags| - 1;
      var start := StartOffset(words[..i]);
      Entities(words, tags[..i])
      + (if tags[i] == Outside then [] else [Entity(start, start + |words[i]|, tags[i])])
  }

  /** Whether every tag of the example has a word of the split text. */
  predicate Fits(ex: TaggedExample) {
    |ex.tags| <= |Split(ex.text)|
  }

  /** The conversion of example number `k`. */
  function AnnotateExample(ex: TaggedExample, k: nat): Result<Annotation> {
    var words := Split(ex.text);
    if Fits(ex) then Ok(Annotation(ex.text, Entities(words, ex.tags)))
    else Err(IndexError(k, |words|))
  }

  /** The conversion of a list of examples: the annotations in input order, or
      the error of the first example that has more tags than words. */
  function Annotations(inputs: seq<TaggedExample>): Result<seq<Annotation>> {
    if inputs == [] then Ok([])
    else
      var k := |inputs| - 1;
      match Annotations(inputs[..k])
      case Err(e) => Err(e)
      case Ok(prev) =>
        match AnnotateExample(inputs[k], k)
        case Err(e) => Err(e)
        case Ok(a) => Ok(prev + [a])
  }

  /** `create_annotations`: for each example, split its text into words and
      collect its entities; the first example with more tags than words
      raises `IndexError`. */
  method CreateAnnotations(inputs: seq<TaggedExample>) returns (r: Result<seq<Annotation>>)
    ensures r == Annotations(inputs)
  {
    var annotations: seq<Annotation> := [];
    for k := 0 to |inputs|
      invariant Annotations(inputs[..k]) == Ok(annotations)
    {
      var sequence := inputs[k].text;
      var tags := inputs[k].tags;
      var words := Split(sequence);
      var entities, ok := TagsToEntities(words, tags);
      AnnotationsStep(inputs, k);
      if !ok {
        ErrorPersists(inputs, k + 1);
        return Err(IndexError(k, |words|));
      }
      annotations := annotations + [Annotation(sequence, entities)];
    }
    assert inputs[..|inputs|] == inputs;
    r := Ok(annotations);
  }

  /** The inner loop of `create_annotations`: walk the tags while keeping the
      list of words consumed so far, and emit a span for every tag other than
      `Outside`, starting one past the single-space join of the consumed words.
      `ok` is false when a tag has no word, where `words[i]` raises. */
  method TagsToEntities(words: seq<string>, tags: seq<string>) returns (entities: seq<Entity>, ok: bool)
    ensures ok == (|tags| <= |words|)
    ensures ok ==> entities == Entities(words, tags)
    ensures !ok ==> entities == Entities(words, tags[..|words|])
  {
    var consumed: seq<string> := [];
    entities := [];
    for i := 0 to |tags|
      invariant i <= |words|
      invariant consumed == words[..i]
      invariant entities == Entities(words, tags[..i])
    {
      if i >= |words| {
        return entities, false;
      }
      if tags[i] == Outside {
        consumed := consumed + [words[i]];
        EntitiesStep(words, tags, i);
        continue;
      }
      var startPos := |JoinWords(consumed)| + 1;
      var endPos := startPos + |words[i]|;
      entities := entities + [Entity(startPos, endPos, tags[i])];
      consumed := consumed + [words[i]];
      EntitiesStep(words, tags, i);
    }
    assert tags[..|tags|] == tags;
    ok := true;
  }

  /** Once a prefix of the inputs fails, the whole list fails with the same error. */
  lemma {:induction false} ErrorPersists(inputs: seq<TaggedExample>, n: nat)
    requires n <= |inputs|
    requires Annotations(inputs[..n]).Err?
    ensures Annotations(inputs) == Annotations(inputs[..n])
    decreases |inputs| - n
  {
    if n < |inputs| {
      assert inputs[..n + 1][..n] == inputs[..n];
      ErrorPersists(inputs, n + 1);
    } else {
      assert inputs[..n] == inputs;
    }
  }

  /** What one more tag adds to the entities. */
  lemma EntitiesStep(words: seq<string>, tags: seq<string>, i: nat)
    requires i < |tags| && i < |words|
    ensures var start := StartOffset(words[..i]);
      Entities(words, tags[..i + 1]) == Entities(words, tags[..i])
        + (if tags[i] == Outside then [] else [Entity(start, start + |words[i]|, tags[i])])
  {
    assert tags[..i + 1][..i] == tags[..i];
  }

  /** What one more example adds to the annotations. */
  lemma AnnotationsStep(inputs: seq<TaggedExample>, k: nat)
    requires k < |inputs|
    ensures Annotations(inputs[..k + 1]) ==
      match Annotations(inputs[..k])
      case Err(e) => Err(e)
      case Ok(prev) =>
        match AnnotateExample(inputs[k], k)
        case Err(e) => Err(e)
        case Ok(a) => Ok(prev + [a])
  {
    assert inputs[..k + 1][..k] == inputs[..k];
  }

  /** The start offset of word `i` is its true offset in `" ".join(words)`,
      except for the first word, whose start is 1 instead of 0. */
  lemma StartOffsetValue(words: seq<string>, i: nat)
    requires i <= |words|
    ensures StartOffset(words[..i]) == WordOffset(words, i) + (if i == 0 then 1 else 0)
  {
  }

  /** The span the converter emits for a tagged word at position `p`: at the
      word's offset in `" ".join(words)`, plus one for the first word. */
  function SpanAt(words: seq<string>, tags: seq<string>, p: nat): Entity
    requires p < |words| && p < |tags|
  {
    var start := WordOffset(words, p) + (if p == 0 then 1 else 0);
    Entity(start, start + |words[p]|, tags[p])
  }

  /** What the entities of one example are: one per tag other than `Outside`,
      in position order, each labelled with its tag, as long as its word, and
      starting at the word's offset (one too far for the first word). */
  lemma {:induction false} EntitiesSpec(words: seq<string>, tags: seq<string>)
    requires |tags| <= |words|
    ensures |Entities(words, tags)| == |TaggedPositions(tags)|
    ensures forall j :: 0 <= j < |Entities(words, tags)| ==>
      Entities(words, tags)[j] == SpanAt(words, tags, TaggedPositions(tags)[j])
    ensures forall j :: 0 <= j < |Entities(words, tags)| ==>
      var e, p := Entities(words, tags)[j], TaggedPositions(tags)[j];
      e.tag == tags[p] && e.end == e.start + |words[p]|
      && e.start == WordOffset(words, p) + (if p == 0 then 1 else 0)
    decreases |tags|
  {
    if tags != [] {
      var i := |tags| - 1;
      var init := tags[..i];
      EntitiesSpec(words, init);
      StartOffsetValue(words, i);
      var es, ps := Entities(words, tags), TaggedPositions(tags);
      var es', ps' := Entities(words, init), TaggedPositions(init);
      assert es == es' + (if tags[i] == Outside then [] else [SpanAt(words, tags, i)]);
      assert ps == ps' + (if tags[i] != Outside then [i] else []);
      forall j | 0 <= j < |es'|
        ensures es[j] == SpanAt(words, tags, ps[j])
      {
        SpanAtPrefix(words, tags, i, ps'[j]);
      }
    }
  }

  /** The span of a word does not depend on the tags after it. */
  lemma SpanAtPrefix(words: seq<string>, tags: seq<string>, n: nat, p: nat)
    requires p < n <= |tags| && p < |words|
    ensures SpanAt(words, tags[..n], p) == SpanAt(words, tags, p)
  {
  }

  /** An example whose tags are all `Outside` has no entities. */
  lemma {:induction false} AllOutsideNoEntities(words: seq<string>, tags: seq<string>)
    requires |tags| <= |words|
    requires forall i :: 0 <= i < |tags| ==> tags[i] == Outside
    ensures Entities(words, tags) == []
    decreases |tags|
  {
    if tags != [] {
      var i := |tags| - 1;
      assert forall i' :: 0 <= i' < i ==> tags[..i][i'] == tags[i'];
      AllOutsideNoEntities(words, tags[..i]);
    }
  }

  /** Words beyond the last tag play no part. */
  lemma {:induction false} ExtraWordsIgnored(words: seq<string>, more: seq<string>, tags: seq<string>)
    requires |tags| <= |words|
    ensures Entities(words + more, tags) == Entities(words, tags)
    decreases |tags|
  {
    if tags != [] {
      var i := |tags| - 1;
      var longer := words + more;
      ExtraWordsIgnored(words, more, tags[..i]);
      assert longer[..i] == words[..i] && longer[i] == words[i];
      var start := StartOffset(words[..i]);
      var last := if tags[i] == Outside then [] else [Entity(start, start + |words[i]|, tags[i])];
      assert Entities(words, tags) == Entities(words, tags[..i]) + last;
      assert Entities(longer, tags) == Entities(longer, tags[..i]) + last;
    }
  }

  lemma {:induction false} TotalLengthMonotone(ws: seq<string>, a: nat, b: nat)
    requires a <= b <= |ws|
    ensures TotalLength(ws[..a]) <= TotalLength(ws[..b])
    decreases b - a
  {
    if a < b {
      TotalLengthMonotone(ws, a, b - 1);
      assert ws[..b][..b - 1] == ws[..b - 1];
    }
  }

  lemma TotalLengthNext(ws: seq<string>, a: nat)
    requires a < |ws|
    ensures TotalLength(ws[..a + 1]) == TotalLength(ws[..a]) + |ws[a]|
  {
    assert ws[..a + 1][..a] == ws[..a];
  }

  /** Spans never overlap and come in ascending order: each one ends at or
      before the start of every later one. */
  lemma EntitiesAscending(words: seq<string>, tags: seq<string>)
    requires |tags| <= |words|
    ensures forall j, j' :: 0 <= j < j' < |Entities(words, tags)| ==>
      Entities(words, tags)[j].end <= Entities(words, tags)[j'].start
  {
    EntitiesSpec(words, tags);
    var es, ps := Entities(words, tags), TaggedPositions(tags);
    forall j, j' | 0 <= j < j' < |es| ensures es[j].end <= es[j'].start {
      var p, p' := ps[j], ps[j'];
      TotalLengthNext(words, p);
      TotalLengthMonotone(words, p + 1, p');
    }
  }

  /** A span at any position but the first selects exactly its word from the
      single-space join of the words. */
  lemma EntityCoversWord(words: seq<string>, tags: seq<string>, j: nat)
    requires |tags| <= |words|
    requires j < |TaggedPositions(tags)| && TaggedPositions(tags)[j] > 0
    ensures j < |Entities(words, tags)|
    ensures var e, text := Entities(words, tags)[j], JoinWords(words);
      e.start <= e.end <= |text| && text[e.start..e.end] == words[TaggedPositions(tags)[j]]
  {
    EntitiesSpec(words, tags);
    var p := TaggedPositions(tags)[j];
    StartOffsetValue(words, p);
    JoinWordAt(words, p);
  }

  /** A tagged first word gets the span `[1, 1 + len(word)]`, one character to
      the right of where the word stands. */
  lemma FirstWordOffByOne(words: seq<string>, tags: seq<string>)
    requires 0 < |tags| <= |words|
    requires tags[0] != Outside
    ensures Entities(words, tags) != []
    ensures Entities(words, tags)[0] == Entity(1, 1 + |words[0]|, tags[0])
    ensures WordOffset(words, 0) == 0
    ensures |words[0]| <= |JoinWords(words)| && JoinWords(words)[..|words[0]|] == words[0]
  {
    EntitiesSpec(words, tags);
    assert 0 in TaggedPositions(tags);
    if |words| > 1 {
      assert words == [words[0]] + words[1..];
      JoinCons(words[0], words[1..]);
    }
  }

  /** The conversion of a list of examples succeeds exactly when every
      example converts. */
  lemma {:induction false} AnnotationsOkIff(inputs: seq<TaggedExample>)
    ensures Annotations(inputs).Ok? <==>
      forall k :: 0 <= k < |inputs| ==> AnnotateExample(inputs[k], k).Ok?
    decreases |inputs|
  {
    if inputs != [] {
      var k := |inputs| - 1;
      var init := inputs[..k];
      assert Annotations(inputs).Ok? <==>
        Annotations(init).Ok? && AnnotateExample(inputs[k], k).Ok?;
      AnnotationsOkIff(init);
      assert forall j :: 0 <= j < k ==> init[j] == inputs[j];
    }
  }

  /** A successful conversion holds one annotation per example, in input
      order: the conversion of that example. */
  lemma {:induction false} AnnotationsInOrder(inputs: seq<TaggedExample>)
    requires Annotations(inputs).Ok?
    ensures |Annotations(inputs).value| == |inputs|
    ensures forall k :: 0 <= k < |inputs| ==>
      AnnotateExample(inputs[k], k) == Ok(Annotations(inputs).value[k])
    ensures forall k :: 0 <= k < |inputs| ==> Annotations(inputs).value[k].text == inputs[k].text
    decreases |inputs|
  {
    if inputs != [] {
      var k := |inputs| - 1;
      var init := inputs[..k];
      AnnotationsStep(inputs, k);
      assert inputs[..k + 1] == inputs;
      AnnotationsInOrder(init);
      var prev := Annotations(init).value;
      assert AnnotateExample(inputs[k], k).Ok?;
      var a := AnnotateExample(inputs[k], k).value;
      var r := Annotations(inputs).value;
      assert r == prev + [a];
      forall j | 0 <= j < |inputs|
        ensures AnnotateExample(inputs[j], j) == Ok(r[j])
      {
        if j < k {
          assert init[j] == inputs[j];
          assert r[j] == prev[j];
        } else {
          assert r[j] == a;
        }
      }
    }
  }

  /** Conversely, when every example converts, the result is exactly those
      annotations in input order. */
  lemma {:induction false} AnnotationsOfExamples(inputs: seq<TaggedExample>, outs: seq<Annotation>)
    requires |outs| == |inputs|
    requires forall k :: 0 <= k < |inputs| ==> AnnotateExample(inputs[k], k) == Ok(outs[k])
    ensures Annotations(inputs) == Ok(outs)
    decreases |inputs|
  {
    if inputs != [] {
      var k := |inputs| - 1;
      var init := inputs[..k];
      AnnotationsStep(inputs, k);
      assert inputs[..k + 1] == inputs;
      assert forall j :: 0 <= j < k ==> init[j] == inputs[j];
      AnnotationsOfExamples(init, outs[..k]);
      assert outs[..k] + [outs[k]] == outs;
    }
  }

  /** A failed conversion reports an example whose conversion fails with that
      error, and every example before it converts. */
  lemma {:induction false} AnnotationsFirstError(inputs: seq<TaggedExample>)
    requires Annotations(inputs).Err?
    ensures Annotations(inputs).error.example < |inputs|
    ensures var e := Annotations(inputs).error;
      AnnotateExample(inputs[e.example], e.example) == Err(e)
      && forall j :: 0 <= j < e.example ==> AnnotateExample(inputs[j], j).Ok?
    decreases |inputs|
  {
    var k := |inputs| - 1;
    var init := inputs[..k];
    AnnotationsStep(inputs, k);
    assert inputs[..k + 1] == inputs;
    if Annotations(init).Err? {
      AnnotationsFirstError(init);
      assert forall j :: 0 <= j < k ==> init[j] == inputs[j];
    } else {
      assert Annotations(inputs).Ok? <==>
        Annotations(init).Ok? && AnnotateExample(inputs[k], k).Ok?;
      AnnotationsOkIff(init);
      assert forall j :: 0 <= j < k ==> init[j] == inputs[j];
    }
  }

  /** For a text that is its words joined by single spaces: the example
      converts exactly when it has no more tags than words (otherwise the
      error names the first missing word), the text is kept unchanged, and
      every span except one on the first word cuts its word out of the text. */
  lemma SpansSelectWords(ws: seq<string>, tags: seq<string>, k: nat)
    requires forall i :: 0 <= i < |ws| ==> IsWord(ws[i])
    ensures AnnotateExample(TaggedExample(JoinWords(ws), tags), k).Ok? <==> |tags| <= |ws|
    ensures |tags| > |ws| ==>
      AnnotateExample(TaggedExample(JoinWords(ws), tags), k) == Err(IndexError(k, |ws|))
    ensures |tags| <= |ws| ==>
      var a := AnnotateExample(TaggedExample(JoinWords(ws), tags), k).value;
      var ps := TaggedPositions(tags);
      a.text == JoinWords(ws) && |a.entities| == |ps|
      && forall j :: 0 <= j < |ps| && ps[j] > 0 ==>
        a.entities[j].start <= a.entities[j].end <= |a.text|
        && a.text[a.entities[j].start..a.entities[j].end] == ws[ps[j]]
  {
    SplitJoin(ws);
    if |tags| <= |ws| {
      EntitiesSpec(ws, tags);
      var ps := TaggedPositions(tags);
      forall j | 0 <= j < |ps| && ps[j] > 0
        ensures var e := Entities(ws, tags)[j];
          e.start <= e.end <= |JoinWords(ws)| && JoinWords(ws)[e.start..e.end] == ws[ps[j]]
      {
        EntityCoversWord(ws, tags, j);
      }
    }
  }

  /** A text that is its words joined by single spaces converts to the
      entities of those words. */
  lemma ConvertJoined(ws: seq<string>, tags: seq<string>, k: nat)
    requires forall i :: 0 <= i < |ws| ==> IsWord(ws[i])
    requires |tags| <= |ws|
    ensures AnnotateExample(TaggedExample(JoinWords(ws), tags), k)
      == Ok(Annotation(JoinWords(ws), Entities(ws, tags)))
  {
    SplitJoin(ws);
  }
}
