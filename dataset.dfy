/** The literal training data of the script, and what the converter makes of
    it. */
module Dataset {
  import opened PyStr
  import opened SpanConverter

  /** The one entity label of the training data. */
  const Katz: string := "KATZ"

  /** The examples of the training data, in the easy format. Each text is
      written as the single-space join of its words; `InputTexts` shows that
      these are the script's strings. */
  const Inputs: seq<TaggedExample> := [
    TaggedExample(JoinWords(["the", "cat", "is", "fluffy"]), [Outside, Katz, Outside, Outside]),
    TaggedExample(JoinWords(["my", "white", "cat", "is", "dirty"]), [Outside, Outside, Katz, Outside, Outside]),
    TaggedExample(JoinWords(["your", "cat", "and", "my", "cat", "are", "friends"]), [Outside, Katz, Outside, Outside, Katz, Outside, Outside]),
    TaggedExample(JoinWords(["the", "dog", "is", "very", "fond", "of", "the", "litte", "cat"]), [Outside, Outside, Outside, Outside, Outside, Outside, Outside, Outside, Katz]),
    TaggedExample(JoinWords(["the", "curious", "cat", "climbed", "on", "the", "tree"]), [Outside, Outside, Katz, Outside, Outside, Outside, Outside]),
    TaggedExample(JoinWords(["the", "cat", "is", "in", "the", "tree"]), [Outside, Katz, Outside, Outside, Outside, Outside]),
    TaggedExample(JoinWords(["my", "cat", "is", "gray"]), [Outside, Katz, Outside, Outside]),
    TaggedExample(JoinWords(["on", "the", "bed", "there", "is", "a", "cat", "sleeping"]), [Outside, Outside, Outside, Outside, Outside, Outside, Katz, Outside]),
    TaggedExample(JoinWords(["a", "cat", "is", "drinking", "milk"]), [Outside, Katz, Outside, Outside, Outside])
  ]

  /** The annotations the converter produces for `Inputs`. */
  const TrainData: seq<Annotation> := [
    Annotation(Inputs[0].text, [Entity(4, 7, Katz)]),
    Annotation(Inputs[1].text, [Entity(9, 12, Katz)]),
    Annotation(Inputs[2].text, [Entity(5, 8, Katz), Entity(16, 19, Katz)]),
    Annotation(Inputs[3].text, [Entity(34, 37, Katz)]),
    Annotation(Inputs[4].text, [Entity(12, 15, Katz)]),
    Annotation(Inputs[5].text, [Entity(4, 7, Katz)]),
    Annotation(Inputs[6].text, [Entity(3, 6, Katz)]),
    Annotation(Inputs[7].text, [Entity(22, 25, Katz)]),
    Annotation(Inputs[8].text, [Entity(2, 5, Katz)])
  ]

  /** One pass of the inner loop over a word tagged `Outside`, on a text whose
      consumed words so far join to `n` characters: no span is added, and the
      join of the consumed words grows by the word and a space. */
  lemma ConsumeOutside(ws: seq<string>, tags: seq<string>, i: nat, es: seq<Entity>, n: nat)
    requires i < |tags| <= |ws| && tags[i] == Outside
    requires Entities(ws, tags[..i]) == es
    requires |JoinWords(ws[..i])| == n
    ensures Entities(ws, tags[..i + 1]) == es
    ensures |JoinWords(ws[..i + 1])| == if i == 0 then |ws[0]| else n + 1 + |ws[i]|
  {
    assert tags[..i + 1][..i] == tags[..i];
    assert ws[..i + 1][..i] == ws[..i];
  }

  /** One pass of the inner loop over a tagged word: its span starts one past
      the `n` characters of the consumed words' join. */
  lemma ConsumeTagged(ws: seq<string>, tags: seq<string>, i: nat, es: seq<Entity>, n: nat)
    requires i < |tags| <= |ws| && tags[i] != Outside
    requires Entities(ws, tags[..i]) == es
    requires |JoinWords(ws[..i])| == n
    ensures Entities(ws, tags[..i + 1]) == es + [Entity(n + 1, n + 1 + |ws[i]|, tags[i])]
    ensures |JoinWords(ws[..i + 1])| == if i == 0 then |ws[0]| else n + 1 + |ws[i]|
  {
    assert tags[..i + 1][..i] == tags[..i];
    assert ws[..i + 1][..i] == ws[..i];
  }

  /** One more word on a join whose value is known. */
  lemma JoinNext(ws: seq<string>, i: nat, j: string)
    requires 0 < i < |ws|
    requires JoinWords(ws[..i]) == j
    ensures JoinWords(ws[..i + 1]) == j + " " + ws[i]
  {
    assert ws[..i + 1][..i] == ws[..i];
  }

  /** The words of example 0, joined by single spaces. */
  lemma TrainingText0()
    ensures JoinWords(["the", "cat", "is", "fluffy"]) == "the cat is fluffy"
  {
    var ws := ["the", "cat", "is", "fluffy"];
    assert ws[..1] == ["the"];
    JoinNext(ws, 1, "the");
    JoinNext(ws, 2, "the cat");
    JoinNext(ws, 3, "the cat is");
    assert ws[..4] == ws;
  }

  /** The words of example 0 hold no whitespace. */
  lemma TrainingWords0()
    ensures forall i :: 0 <= i < 4 ==> IsWord(["the", "cat", "is", "fluffy"][i])
  {
  }

  /** The inner loop on example 0, pass by pass, for any words of the
      lengths of its words: the spans depend on nothing else. */
  lemma TrainingSpans0(ws: seq<string>, tags: seq<string>)
    requires |ws| == 4 && |ws[0]| == 3 && |ws[1]| == 3 && |ws[2]| == 2 && |ws[3]| == 6
    requires |tags| == 4 && tags[0] == Outside && tags[1] == Katz && tags[2] == Outside && tags[3] == Outside
    ensures Entities(ws, tags) == [Entity(4, 7, Katz)]
  {
    assert Entities(ws, tags[..1]) == [] && |JoinWords(ws[..1])| == 3 by {
      ConsumeOutside(ws, tags, 0, [], 0);
    }
    assert Entities(ws, tags[..2]) == [Entity(4, 7, Katz)] && |JoinWords(ws[..2])| == 7 by {
      ConsumeTagged(ws, tags, 1, [], 3);
    }
    assert Entities(ws, tags[..3]) == [Entity(4, 7, Katz)] && |JoinWords(ws[..3])| == 10 by {
      ConsumeOutside(ws, tags, 2, [Entity(4, 7, Katz)], 7);
    }
    assert Entities(ws, tags[..4]) == [Entity(4, 7, Katz)] by {
      ConsumeOutside(ws, tags, 3, [Entity(4, 7, Katz)], 10);
    }
    assert tags[..4] == tags;
  }

  /** Example 0 converts to the annotation listed for it. */
  lemma TrainingExample0()
    ensures AnnotateExample(Inputs[0], 0) == Ok(TrainData[0])
  {
    TrainingWords0();
    TrainingSpans0(["the", "cat", "is", "fluffy"], [Outside, Katz, Outside, Outside]);
    ConvertJoined(["the", "cat", "is", "fluffy"], [Outside, Katz, Outside, Outside], 0);
  }

  /** The words of example 1, joined by single spaces. */
  lemma TrainingText1()
    ensures JoinWords(["my", "white", "cat", "is", "dirty"]) == "my white cat is dirty"
  {
    var ws := ["my", "white", "cat", "is", "dirty"];
    assert ws[..1] == ["my"];
    JoinNext(ws, 1, "my");
    JoinNext(ws, 2, "my white");
    JoinNext(ws, 3, "my white cat");
    JoinNext(ws, 4, "my white cat is");
    assert ws[..5] == ws;
  }

  /** The words of example 1 hold no whitespace. */
  lemma TrainingWords1()
    ensures forall i :: 0 <= i < 5 ==> IsWord(["my", "white", "cat", "is", "dirty"][i])
  {
  }

  /** The inner loop on example 1, pass by pass, for any words of the
      lengths of its words: the spans depend on nothing else. */
  lemma TrainingSpans1(ws: seq<string>, tags: seq<string>)
    requires |ws| == 5 && |ws[0]| == 2 && |ws[1]| == 5 && |ws[2]| == 3 && |ws[3]| == 2 && |ws[4]| == 5
    requires |tags| == 5 && tags[0] == Outside && tags[1] == Outside && tags[2] == Katz && tags[3] == Outside && tags[4] == Outside
    ensures Entities(ws, tags) == [Entity(9, 12, Katz)]
  {
    assert Entities(ws, tags[..1]) == [] && |JoinWords(ws[..1])| == 2 by {
      ConsumeOutside(ws, tags, 0, [], 0);
    }
    assert Entities(ws, tags[..2]) == [] && |JoinWords(ws[..2])| == 8 by {
      ConsumeOutside(ws, tags, 1, [], 2);
    }
    assert Entities(ws, tags[..3]) == [Entity(9, 12, Katz)] && |JoinWords(ws[..3])| == 12 by {
      ConsumeTagged(ws, tags, 2, [], 8);
    }
    assert Entities(ws, tags[..4]) == [Entity(9, 12, Katz)] && |JoinWords(ws[..4])| == 15 by {
      ConsumeOutside(ws, tags, 3, [Entity(9, 12, Katz)], 12);
    }
    assert Entities(ws, tags[..5]) == [Entity(9, 12, Katz)] by {
      ConsumeOutside(ws, tags, 4, [Entity(9, 12, Katz)], 15);
    }
    assert tags[..5] == tags;
  }

  /** Example 1 converts to the annotation listed for it. */
  lemma TrainingExample1()
    ensures AnnotateExample(Inputs[1], 1) == Ok(TrainData[1])
  {
    TrainingWords1();
    TrainingSpans1(["my", "white", "cat", "is", "dirty"], [Outside, Outside, Katz, Outside, Outside]);
    ConvertJoined(["my", "white", "cat", "is", "dirty"], [Outside, Outside, Katz, Outside, Outside], 1);
  }

  /** The words of example 2, joined by single spaces. */
  lemma TrainingText2()
    ensures JoinWords(["your", "cat", "and", "my", "cat", "are", "friends"]) == "your cat and my cat are friends"
  {
    var ws := ["your", "cat", "and", "my", "cat", "are", "friends"];
    assert ws[..1] == ["your"];
    JoinNext(ws, 1, "your");
    JoinNext(ws, 2, "your cat");
    JoinNext(ws, 3, "your cat and");
    JoinNext(ws, 4, "your cat and my");
    JoinNext(ws, 5, "your cat and my cat");
    JoinNext(ws, 6, "your cat and my cat are");
    assert ws[..7] == ws;
  }

  /** The words of example 2 hold no whitespace. */
  lemma TrainingWords2()
    ensures forall i :: 0 <= i < 7 ==> IsWord(["your", "cat", "and", "my", "cat", "are", "friends"][i])
  {
  }

  /** The inner loop on example 2, pass by pass, for any words of the
      lengths of its words: the spans depend on nothing else. */
  lemma TrainingSpans2(ws: seq<string>, tags: seq<string>)
    requires |ws| == 7 && |ws[0]| == 4 && |ws[1]| == 3 && |ws[2]| == 3 && |ws[3]| == 2 && |ws[4]| == 3 && |ws[5]| == 3 && |ws[6]| == 7
    requires |tags| == 7 && tags[0] == Outside && tags[1] == Katz && tags[2] == Outside && tags[3] == Outside && tags[4] == Katz && tags[5] == Outside && tags[6] == Outside
    ensures Entities(ws, tags) == [Entity(5, 8, Katz), Entity(16, 19, Katz)]
  {
    assert Entities(ws, tags[..1]) == [] && |JoinWords(ws[..1])| == 4 by {
      ConsumeOutside(ws, tags, 0, [], 0);
    }
    assert Entities(ws, tags[..2]) == [Entity(5, 8, Katz)] && |JoinWords(ws[..2])| == 8 by {
      ConsumeTagged(ws, tags, 1, [], 4);
    }
    assert Entities(ws, tags[..3]) == [Entity(5, 8, Katz)] && |JoinWords(ws[..3])| == 12 by {
      ConsumeOutside(ws, tags, 2, [Entity(5, 8, Katz)], 8);
    }
    assert Entities(ws, tags[..4]) == [Entity(5, 8, Katz)] && |JoinWords(ws[..4])| == 15 by {
      ConsumeOutside(ws, tags, 3, [Entity(5, 8, Katz)], 12);
    }
    assert Entities(ws, tags[..5]) == [Entity(5, 8, Katz), Entity(16, 19, Katz)] && |JoinWords(ws[..5])| == 19 by {
      ConsumeTagged(ws, tags, 4, [Entity(5, 8, Katz)], 15);
    }
    assert Entities(ws, tags[..6]) == [Entity(5, 8, Katz), Entity(16, 19, Katz)] && |JoinWords(ws[..6])| == 23 by {
      ConsumeOutside(ws, tags, 5, [Entity(5, 8, Katz), Entity(16, 19, Katz)], 19);
    }
    assert Entities(ws, tags[..7]) == [Entity(5, 8, Katz), Entity(16, 19, Katz)] by {
      ConsumeOutside(ws, tags, 6, [Entity(5, 8, Katz), Entity(16, 19, Katz)], 23);
    }
    assert tags[..7] == tags;
  }

  /** Example 2 converts to the annotation listed for it. */
  lemma TrainingExample2()
    ensures AnnotateExample(Inputs[2], 2) == Ok(TrainData[2])
  {
    TrainingWords2();
    TrainingSpans2(["your", "cat", "and", "my", "cat", "are", "friends"], [Outside, Katz, Outside, Outside, Katz, Outside, Outside]);
    ConvertJoined(["your", "cat", "and", "my", "cat", "are", "friends"], [Outside, Katz, Outside, Outside, Katz, Outside, Outside], 2);
  }

  /** The words of example 3, joined by single spaces. */
  lemma TrainingText3()
    ensures JoinWords(["the", "dog", "is", "very", "fond", "of", "the", "litte", "cat"]) == "the dog is very fond of the litte cat"
  {
    var ws := ["the", "dog", "is", "very", "fond", "of", "the", "litte", "cat"];
    assert ws[..1] == ["the"];
    JoinNext(ws, 1, "the");
    JoinNext(ws, 2, "the dog");
    JoinNext(ws, 3, "the dog is");
    JoinNext(ws, 4, "the dog is very");
    JoinNext(ws, 5, "the dog is very fond");
    JoinNext(ws, 6, "the dog is very fond of");
    JoinNext(ws, 7, "the dog is very fond of the");
    JoinNext(ws, 8, "the dog is very fond of the litte");
    assert ws[..9] == ws;
  }

  /** The words of example 3 hold no whitespace. */
  lemma TrainingWords3()
    ensures forall i :: 0 <= i < 9 ==> IsWord(["the", "dog", "is", "very", "fond", "of", "the", "litte", "cat"][i])
  {
  }

  /** The inner loop on example 3, pass by pass, for any words of the
      lengths of its words: the spans depend on nothing else. */
  lemma TrainingSpans3(ws: seq<string>, tags: seq<string>)
    requires |ws| == 9 && |ws[0]| == 3 && |ws[1]| == 3 && |ws[2]| == 2 && |ws[3]| == 4 && |ws[4]| == 4 && |ws[5]| == 2 && |ws[6]| == 3 && |ws[7]| == 5 && |ws[8]| == 3
    requires |tags| == 9 && tags[0] == Outside && tags[1] == Outside && tags[2] == Outside && tags[3] == Outside && tags[4] == Outside && tags[5] == Outside && tags[6] == Outside && tags[7] == Outside && tags[8] == Katz
    ensures Entities(ws, tags) == [Entity(34, 37, Katz)]
  {
    assert Entities(ws, tags[..1]) == [] && |JoinWords(ws[..1])| == 3 by {
      ConsumeOutside(ws, tags, 0, [], 0);
    }
    assert Entities(ws, tags[..2]) == [] && |JoinWords(ws[..2])| == 7 by {
      ConsumeOutside(ws, tags, 1, [], 3);
    }
    assert Entities(ws, tags[..3]) == [] && |JoinWords(ws[..3])| == 10 by {
      ConsumeOutside(ws, tags, 2, [], 7);
    }
    assert Entities(ws, tags[..4]) == [] && |JoinWords(ws[..4])| == 15 by {
      ConsumeOutside(ws, tags, 3, [], 10);
    }
    assert Entities(ws, tags[..5]) == [] && |JoinWords(ws[..5])| == 20 by {
      ConsumeOutside(ws, tags, 4, [], 15);
    }
    assert Entities(ws, tags[..6]) == [] && |JoinWords(ws[..6])| == 23 by {
      ConsumeOutside(ws, tags, 5, [], 20);
    }
    assert Entities(ws, tags[..7]) == [] && |JoinWords(ws[..7])| == 27 by {
      ConsumeOutside(ws, tags, 6, [], 23);
    }
    assert Entities(ws, tags[..8]) == [] && |JoinWords(ws[..8])| == 33 by {
      ConsumeOutside(ws, tags, 7, [], 27);
    }
    assert Entities(ws, tags[..9]) == [Entity(34, 37, Katz)] by {
      ConsumeTagged(ws, tags, 8, [], 33);
    }
    assert tags[..9] == tags;
  }

  /** Example 3 converts to the annotation listed for it. */
  lemma TrainingExample3()
    ensures AnnotateExample(Inputs[3], 3) == Ok(TrainData[3])
  {
    TrainingWords3();
    TrainingSpans3(["the", "dog", "is", "very", "fond", "of", "the", "litte", "cat"], [Outside, Outside, Outside, Outside, Outside, Outside, Outside, Outside, Katz]);
    ConvertJoined(["the", "dog", "is", "very", "fond", "of", "the", "litte", "cat"], [Outside, Outside, Outside, Outside, Outside, Outside, Outside, Outside, Katz], 3);
  }

  /** The words of example 4, joined by single spaces. */
  lemma TrainingText4()
    ensures JoinWords(["the", "curious", "cat", "climbed", "on", "the", "tree"]) == "the curious cat climbed on the tree"
  {
    var ws := ["the", "curious", "cat", "climbed", "on", "the", "tree"];
    assert ws[..1] == ["the"];
    JoinNext(ws, 1, "the");
    JoinNext(ws, 2, "the curious");
    JoinNext(ws, 3, "the curious cat");
    JoinNext(ws, 4, "the curious cat climbed");
    JoinNext(ws, 5, "the curious cat climbed on");
    JoinNext(ws, 6, "the curious cat climbed on the");
    assert ws[..7] == ws;
  }

  /** The words of example 4 hold no whitespace. */
  lemma TrainingWords4()
    ensures forall i :: 0 <= i < 7 ==> IsWord(["the", "curious", "cat", "climbed", "on", "the", "tree"][i])
  {
  }

  /** The inner loop on example 4, pass by pass, for any words of the
      lengths of its words: the spans depend on nothing else. */
  lemma TrainingSpans4(ws: seq<string>, tags: seq<string>)
    requires |ws| == 7 && |ws[0]| == 3 && |ws[1]| == 7 && |ws[2]| == 3 && |ws[3]| == 7 && |ws[4]| == 2 && |ws[5]| == 3 && |ws[6]| == 4
    requires |tags| == 7 && tags[0] == Outside && tags[1] == Outside && tags[2] == Katz && tags[3] == Outside && tags[4] == Outside && tags[5] == Outside && tags[6] == Outside
    ensures Entities(ws, tags) == [Entity(12, 15, Katz)]
  {
    assert Entities(ws, tags[..1]) == [] && |JoinWords(ws[..1])| == 3 by {
      ConsumeOutside(ws, tags, 0, [], 0);
    }
    assert Entities(ws, tags[..2]) == [] && |JoinWords(ws[..2])| == 11 by {
      ConsumeOutside(ws, tags, 1, [], 3);
    }
    assert Entities(ws, tags[..3]) == [Entity(12, 15, Katz)] && |JoinWords(ws[..3])| == 15 by {
      ConsumeTagged(ws, tags, 2, [], 11);
    }
    assert Entities(ws, tags[..4]) == [Entity(12, 15, Katz)] && |JoinWords(ws[..4])| == 23 by {
      ConsumeOutside(ws, tags, 3, [Entity(12, 15, Katz)], 15);
    }
    assert Entities(ws, tags[..5]) == [Entity(12, 15, Katz)] && |JoinWords(ws[..5])| == 26 by {
      ConsumeOutside(ws, tags, 4, [Entity(12, 15, Katz)], 23);
    }
    assert Entities(ws, tags[..6]) == [Entity(12, 15, Katz)] && |JoinWords(ws[..6])| == 30 by {
      ConsumeOutside(ws, tags, 5, [Entity(12, 15, Katz)], 26);
    }
    assert Entities(ws, tags[..7]) == [Entity(12, 15, Katz)] by {
      ConsumeOutside(ws, tags, 6, [Entity(12, 15, Katz)], 30);
    }
    assert tags[..7] == tags;
  }

  /** Example 4 converts to the annotation listed for it. */
  lemma TrainingExample4()
    ensures AnnotateExample(Inputs[4], 4) == Ok(TrainData[4])
  {
    TrainingWords4();
    TrainingSpans4(["the", "curious", "cat", "climbed", "on", "the", "tree"], [Outside, Outside, Katz, Outside, Outside, Outside, Outside]);
    ConvertJoined(["the", "curious", "cat", "climbed", "on", "the", "tree"], [Outside, Outside, Katz, Outside, Outside, Outside, Outside], 4);
  }

  /** The words of example 5, joined by single spaces. */
  lemma TrainingText5()
    ensures JoinWords(["the", "cat", "is", "in", "the", "tree"]) == "the cat is in the tree"
  {
    var ws := ["the", "cat", "is", "in", "the", "tree"];
    assert ws[..1] == ["the"];
    JoinNext(ws, 1, "the");
    JoinNext(ws, 2, "the cat");
    JoinNext(ws, 3, "the cat is");
    JoinNext(ws, 4, "the cat is in");
    JoinNext(ws, 5, "the cat is in the");
    assert ws[..6] == ws;
  }

  /** The words of example 5 hold no whitespace. */
  lemma TrainingWords5()
    ensures forall i :: 0 <= i < 6 ==> IsWord(["the", "cat", "is", "in", "the", "tree"][i])
  {
  }

  /** The inner loop on example 5, pass by pass, for any words of the
      lengths of its words: the spans depend on nothing else. */
  lemma TrainingSpans5(ws: seq<string>, tags: seq<string>)
    requires |ws| == 6 && |ws[0]| == 3 && |ws[1]| == 3 && |ws[2]| == 2 && |ws[3]| == 2 && |ws[4]| == 3 && |ws[5]| == 4
    requires |tags| == 6 && tags[0] == Outside && tags[1] == Katz && tags[2] == Outside && tags[3] == Outside && tags[4] == Outside && tags[5] == Outside
    ensures Entities(ws, tags) == [Entity(4, 7, Katz)]
  {
    assert Entities(ws, tags[..1]) == [] && |JoinWords(ws[..1])| == 3 by {
      ConsumeOutside(ws, tags, 0, [], 0);
    }
    assert Entities(ws, tags[..2]) == [Entity(4, 7, Katz)] && |JoinWords(ws[..2])| == 7 by {
      ConsumeTagged(ws, tags, 1, [], 3);
    }
    assert Entities(ws, tags[..3]) == [Entity(4, 7, Katz)] && |JoinWords(ws[..3])| == 10 by {
      ConsumeOutside(ws, tags, 2, [Entity(4, 7, Katz)], 7);
    }
    assert Entities(ws, tags[..4]) == [Entity(4, 7, Katz)] && |JoinWords(ws[..4])| == 13 by {
      ConsumeOutside(ws, tags, 3, [Entity(4, 7, Katz)], 10);
    }
    assert Entities(ws, tags[..5]) == [Entity(4, 7, Katz)] && |JoinWords(ws[..5])| == 17 by {
      ConsumeOutside(ws, tags, 4, [Entity(4, 7, Katz)], 13);
    }
    assert Entities(ws, tags[..6]) == [Entity(4, 7, Katz)] by {
      ConsumeOutside(ws, tags, 5, [Entity(4, 7, Katz)], 17);
    }
    assert tags[..6] == tags;
  }

  /** Example 5 converts to the annotation listed for it. */
  lemma TrainingExample5()
    ensures AnnotateExample(Inputs[5], 5) == Ok(TrainData[5])
  {
    TrainingWords5();
    TrainingSpans5(["the", "cat", "is", "in", "the", "tree"], [Outside, Katz, Outside, Outside, Outside, Outside]);
    ConvertJoined(["the", "cat", "is", "in", "the", "tree"], [Outside, Katz, Outside, Outside, Outside, Outside], 5);
  }

  /** The words of example 6, joined by single spaces. */
  lemma TrainingText6()
    ensures JoinWords(["my", "cat", "is", "gray"]) == "my cat is gray"
  {
    var ws := ["my", "cat", "is", "gray"];
    assert ws[..1] == ["my"];
    JoinNext(ws, 1, "my");
    JoinNext(ws, 2, "my cat");
    JoinNext(ws, 3, "my cat is");
    assert ws[..4] == ws;
  }

  /** The words of example 6 hold no whitespace. */
  lemma TrainingWords6()
    ensures forall i :: 0 <= i < 4 ==> IsWord(["my", "cat", "is", "gray"][i])
  {
  }

  /** The inner loop on example 6, pass by pass, for any words of the
      lengths of its words: the spans depend on nothing else. */
  lemma TrainingSpans6(ws: seq<string>, tags: seq<string>)
    requires |ws| == 4 && |ws[0]| == 2 && |ws[1]| == 3 && |ws[2]| == 2 && |ws[3]| == 4
    requires |tags| == 4 && tags[0] == Outside && tags[1] == Katz && tags[2] == Outside && tags[3] == Outside
    ensures Entities(ws, tags) == [Entity(3, 6, Katz)]
  {
    assert Entities(ws, tags[..1]) == [] && |JoinWords(ws[..1])| == 2 by {
      ConsumeOutside(ws, tags, 0, [], 0);
    }
    assert Entities(ws, tags[..2]) == [Entity(3, 6, Katz)] && |JoinWords(ws[..2])| == 6 by {
      ConsumeTagged(ws, tags, 1, [], 2);
    }
    assert Entities(ws, tags[..3]) == [Entity(3, 6, Katz)] && |JoinWords(ws[..3])| == 9 by {
      ConsumeOutside(ws, tags, 2, [Entity(3, 6, Katz)], 6);
    }
    assert Entities(ws, tags[..4]) == [Entity(3, 6, Katz)] by {
      ConsumeOutside(ws, tags, 3, [Entity(3, 6, Katz)], 9);
    }
    assert tags[..4] == tags;
  }

  /** Example 6 converts to the annotation listed for it. */
  lemma TrainingExample6()
    ensures AnnotateExample(Inputs[6], 6) == Ok(TrainData[6])
  {
    TrainingWords6();
    TrainingSpans6(["my", "cat", "is", "gray"], [Outside, Katz, Outside, Outside]);
    ConvertJoined(["my", "cat", "is", "gray"], [Outside, Katz, Outside, Outside], 6);
  }

  /** The words of example 7, joined by single spaces. */
  lemma TrainingText7()
    ensures JoinWords(["on", "the", "bed", "there", "is", "a", "cat", "sleeping"]) == "on the bed there is a cat sleeping"
  {
    var ws := ["on", "the", "bed", "there", "is", "a", "cat", "sleeping"];
    assert ws[..1] == ["on"];
    JoinNext(ws, 1, "on");
    JoinNext(ws, 2, "on the");
    JoinNext(ws, 3, "on the bed");
    JoinNext(ws, 4, "on the bed there");
    JoinNext(ws, 5, "on the bed there is");
    JoinNext(ws, 6, "on the bed there is a");
    JoinNext(ws, 7, "on the bed there is a cat");
    assert ws[..8] == ws;
  }

  /** The words of example 7 hold no whitespace. */
  lemma TrainingWords7()
    ensures forall i :: 0 <= i < 8 ==> IsWord(["on", "the", "bed", "there", "is", "a", "cat", "sleeping"][i])
  {
  }

  /** The inner loop on example 7, pass by pass, for any words of the
      lengths of its words: the spans depend on nothing else. */
  lemma TrainingSpans7(ws: seq<string>, tags: seq<string>)
    requires |ws| == 8 && |ws[0]| == 2 && |ws[1]| == 3 && |ws[2]| == 3 && |ws[3]| == 5 && |ws[4]| == 2 && |ws[5]| == 1 && |ws[6]| == 3 && |ws[7]| == 8
    requires |tags| == 8 && tags[0] == Outside && tags[1] == Outside && tags[2] == Outside && tags[3] == Outside && tags[4] == Outside && tags[5] == Outside && tags[6] == Katz && tags[7] == Outside
    ensures Entities(ws, tags) == [Entity(22, 25, Katz)]
  {
    assert Entities(ws, tags[..1]) == [] && |JoinWords(ws[..1])| == 2 by {
      ConsumeOutside(ws, tags, 0, [], 0);
    }
    assert Entities(ws, tags[..2]) == [] && |JoinWords(ws[..2])| == 6 by {
      ConsumeOutside(ws, tags, 1, [], 2);
    }
    assert Entities(ws, tags[..3]) == [] && |JoinWords(ws[..3])| == 10 by {
      ConsumeOutside(ws, tags, 2, [], 6);
    }
    assert Entities(ws, tags[..4]) == [] && |JoinWords(ws[..4])| == 16 by {
      ConsumeOutside(ws, tags, 3, [], 10);
    }
    assert Entities(ws, tags[..5]) == [] && |JoinWords(ws[..5])| == 19 by {
      ConsumeOutside(ws, tags, 4, [], 16);
    }
    assert Entities(ws, tags[..6]) == [] && |JoinWords(ws[..6])| == 21 by {
      ConsumeOutside(ws, tags, 5, [], 19);
    }
    assert Entities(ws, tags[..7]) == [Entity(22, 25, Katz)] && |JoinWords(ws[..7])| == 25 by {
      ConsumeTagged(ws, tags, 6, [], 21);
    }
    assert Entities(ws, tags[..8]) == [Entity(22, 25, Katz)] by {
      ConsumeOutside(ws, tags, 7, [Entity(22, 25, Katz)], 25);
    }
    assert tags[..8] == tags;
  }

  /** Example 7 converts to the annotation listed for it. */
  lemma TrainingExample7()
    ensures AnnotateExample(Inputs[7], 7) == Ok(TrainData[7])
  {
    TrainingWords7();
    TrainingSpans7(["on", "the", "bed", "there", "is", "a", "cat", "sleeping"], [Outside, Outside, Outside, Outside, Outside, Outside, Katz, Outside]);
    ConvertJoined(["on", "the", "bed", "there", "is", "a", "cat", "sleeping"], [Outside, Outside, Outside, Outside, Outside, Outside, Katz, Outside], 7);
  }

  /** The words of example 8, joined by single spaces. */
  lemma TrainingText8()
    ensures JoinWords(["a", "cat", "is", "drinking", "milk"]) == "a cat is drinking milk"
  {
    var ws := ["a", "cat", "is", "drinking", "milk"];
    assert ws[..1] == ["a"];
    JoinNext(ws, 1, "a");
    JoinNext(ws, 2, "a cat");
    JoinNext(ws, 3, "a cat is");
    JoinNext(ws, 4, "a cat is drinking");
    assert ws[..5] == ws;
  }

  /** The words of example 8 hold no whitespace. */
  lemma TrainingWords8()
    ensures forall i :: 0 <= i < 5 ==> IsWord(["a", "cat", "is", "drinking", "milk"][i])
  {
  }

  /** The inner loop on example 8, pass by pass, for any words of the
      lengths of its words: the spans depend on nothing else. */
  lemma TrainingSpans8(ws: seq<string>, tags: seq<string>)
    requires |ws| == 5 && |ws[0]| == 1 && |ws[1]| == 3 && |ws[2]| == 2 && |ws[3]| == 8 && |ws[4]| == 4
    requires |tags| == 5 && tags[0] == Outside && tags[1] == Katz && tags[2] == Outside && tags[3] == Outside && tags[4] == Outside
    ensures Entities(ws, tags) == [Entity(2, 5, Katz)]
  {
    assert Entities(ws, tags[..1]) == [] && |JoinWords(ws[..1])| == 1 by {
      ConsumeOutside(ws, tags, 0, [], 0);
    }
    assert Entities(ws, tags[..2]) == [Entity(2, 5, Katz)] && |JoinWords(ws[..2])| == 5 by {
      ConsumeTagged(ws, tags, 1, [], 1);
    }
    assert Entities(ws, tags[..3]) == [Entity(2, 5, Katz)] && |JoinWords(ws[..3])| == 8 by {
      ConsumeOutside(ws, tags, 2, [Entity(2, 5, Katz)], 5);
    }
    assert Entities(ws, tags[..4]) == [Entity(2, 5, Katz)] && |JoinWords(ws[..4])| == 17 by {
      ConsumeOutside(ws, tags, 3, [Entity(2, 5, Katz)], 8);
    }
    assert Entities(ws, tags[..5]) == [Entity(2, 5, Katz)] by {
      ConsumeOutside(ws, tags, 4, [Entity(2, 5, Katz)], 17);
    }
    assert tags[..5] == tags;
  }

  /** Example 8 converts to the annotation listed for it. */
  lemma TrainingExample8()
    ensures AnnotateExample(Inputs[8], 8) == Ok(TrainData[8])
  {
    TrainingWords8();
    TrainingSpans8(["a", "cat", "is", "drinking", "milk"], [Outside, Katz, Outside, Outside, Outside]);
    ConvertJoined(["a", "cat", "is", "drinking", "milk"], [Outside, Katz, Outside, Outside, Outside], 8);
  }

  /** The docstring example: `[("the cat is fluffy", ["O", "KATZ", "O", "O"])]`
      becomes `[["the cat is fluffy", {"entities": [[4, 7, "KATZ"]]}]]`. */
  lemma DocstringExample()
    ensures Annotations([Inputs[0]]) == Ok([Annotation(Inputs[0].text, [Entity(4, 7, Katz)])])
  {
    TrainingExample0();
    AnnotationsOfExamples([Inputs[0]], [TrainData[0]]);
  }

  /** The text of the first-word example below. */
  lemma FirstWordText()
    ensures JoinWords(["cat", "is", "fluffy"]) == "cat is fluffy"
    ensures "cat is fluffy"[1..4] == "at "
  {
  }

  lemma FirstWordSpans(ws: seq<string>, tags: seq<string>)
    requires |ws| == 3 && |ws[0]| == 3 && |ws[1]| == 2 && |ws[2]| == 6
    requires |tags| == 3 && tags[0] == Katz && tags[1] == Outside && tags[2] == Outside
    ensures Entities(ws, tags) == [Entity(1, 4, Katz)]
  {
    assert Entities(ws, tags[..1]) == [Entity(1, 4, Katz)] && |JoinWords(ws[..1])| == 3 by {
      ConsumeTagged(ws, tags, 0, [], 0);
    }
    assert Entities(ws, tags[..2]) == [Entity(1, 4, Katz)] && |JoinWords(ws[..2])| == 6 by {
      ConsumeOutside(ws, tags, 1, [Entity(1, 4, Katz)], 3);
    }
    assert Entities(ws, tags[..3]) == [Entity(1, 4, Katz)] by {
      ConsumeOutside(ws, tags, 2, [Entity(1, 4, Katz)], 6);
    }
    assert tags[..3] == tags;
  }

  /** A tag on the first word of "cat is fluffy": its span starts at 1, not 0,
      so it cuts "at " out of the text instead of "cat" (`FirstWordText`). */
  lemma FirstWordTagged()
    ensures AnnotateExample(TaggedExample(JoinWords(["cat", "is", "fluffy"]), [Katz, Outside, Outside]), 0)
      == Ok(Annotation(JoinWords(["cat", "is", "fluffy"]), [Entity(1, 4, Katz)]))
  {
    FirstWordSpans(["cat", "is", "fluffy"], [Katz, Outside, Outside]);
    ConvertJoined(["cat", "is", "fluffy"], [Katz, Outside, Outside], 0);
  }

  /** More tags than words: the third tag of "the cat" has no word, so the
      example fails with the `IndexError` of position 2. */
  lemma TooManyTags(k: nat)
    ensures AnnotateExample(TaggedExample(JoinWords(["the", "cat"]), [Outside, Outside, Katz]), k)
      == Err(IndexError(k, 2))
  {
    // The split of the text, given outright: deriving it from the literal
    // is costly.
    SplitJoin(["the", "cat"]);
  }

  /** The error of the second example ends a conversion whose first example,
      untagged, converts. */
  lemma SecondExampleFails()
    ensures Annotations([TaggedExample(JoinWords(["the", "cat"]), []),
      TaggedExample(JoinWords(["the", "cat"]), [Outside, Outside, Katz])]) == Err(IndexError(1, 2))
  {
    var inputs := [TaggedExample(JoinWords(["the", "cat"]), []),
      TaggedExample(JoinWords(["the", "cat"]), [Outside, Outside, Katz])];
    TooManyTags(1);
    assert AnnotateExample(inputs[0], 0).Ok?;
    AnnotationsStep(inputs, 0);
    AnnotationsStep(inputs, 1);
    assert inputs[..0] == [];
    assert inputs[..2] == inputs;
  }

  lemma FewerTagsSpans(ws: seq<string>, tags: seq<string>)
    requires |ws| == 4 && |ws[0]| == 3 && |ws[1]| == 3
    requires |tags| == 2 && tags[0] == Outside && tags[1] == Katz
    ensures Entities(ws, tags) == [Entity(4, 7, Katz)]
  {
    assert Entities(ws, tags[..1]) == [] && |JoinWords(ws[..1])| == 3 by {
      ConsumeOutside(ws, tags, 0, [], 0);
    }
    assert Entities(ws, tags[..2]) == [Entity(4, 7, Katz)] by {
      ConsumeTagged(ws, tags, 1, [], 3);
    }
    assert tags[..2] == tags;
  }

  /** Fewer tags than words, on the first training text: the words without a
      tag are never looked at. */
  lemma FewerTags()
    ensures AnnotateExample(TaggedExample(Inputs[0].text, [Outside, Katz]), 0)
      == Ok(Annotation(Inputs[0].text, [Entity(4, 7, Katz)]))
  {
    TrainingWords0();
    FewerTagsSpans(["the", "cat", "is", "fluffy"], [Outside, Katz]);
    ConvertJoined(["the", "cat", "is", "fluffy"], [Outside, Katz], 0);
  }

  /** The texts of `Inputs` are the strings of the script's `inputs`. */
  lemma InputTexts()
    ensures Inputs[0].text == "the cat is fluffy"
    ensures Inputs[1].text == "my white cat is dirty"
    ensures Inputs[2].text == "your cat and my cat are friends"
    ensures Inputs[3].text == "the dog is very fond of the litte cat"
    ensures Inputs[4].text == "the curious cat climbed on the tree"
    ensures Inputs[5].text == "the cat is in the tree"
    ensures Inputs[6].text == "my cat is gray"
    ensures Inputs[7].text == "on the bed there is a cat sleeping"
    ensures Inputs[8].text == "a cat is drinking milk"
  {
    TrainingText0();
    TrainingText1();
    TrainingText2();
    TrainingText3();
    TrainingText4();
    TrainingText5();
    TrainingText6();
    TrainingText7();
    TrainingText8();
  }

  /** `TRAIN_DATA = create_annotations(inputs)`: the whole training data
      converts, to the spans listed in `TrainData`. */
  lemma TrainingData()
    ensures Annotations(Inputs) == Ok(TrainData)
  {
    forall k | 0 <= k < |Inputs|
      ensures AnnotateExample(Inputs[k], k) == Ok(TrainData[k])
    {
      if k == 0 {
        TrainingExample0();
      } else if k == 1 {
        TrainingExample1();
      } else if k == 2 {
        TrainingExample2();
      } else if k == 3 {
        TrainingExample3();
      } else if k == 4 {
        TrainingExample4();
      } else if k == 5 {
        TrainingExample5();
      } else if k == 6 {
        TrainingExample6();
      } else if k == 7 {
        TrainingExample7();
      } else if k == 8 {
        TrainingExample8();
      }
    }
    AnnotationsOfExamples(Inputs, TrainData);
  }
}
