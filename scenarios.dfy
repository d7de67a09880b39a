/**
 Four end-to-end requests, each with a generator that returns one fixed text
 for the prompt it is given. Each fact about a string literal is a lemma of
 its own, so that a proof unfolds only the literals it uses.
 */
module Scenarios {
  import opened Text
  import opened Predictor
  import Thonglish

  /** Symptoms that start with a visible character pass the blank-input guard. */
  lemma VisibleStartNotBlank(symptoms: string)
    requires symptoms != [] && !IsSpace(symptoms[0])
    ensures !IsBlank(symptoms)
  {
  }

  /** Four copies of a word, one space apart, split into four words. */
  lemma FourWords(text: string, w: string)
    requires w != [] && HasNoSpace(w) && text == w + " " + (w + " " + (w + " " + w))
    ensures Words(text) == [w, w, w, w]
  {
    var t2 := w + " " + w;
    var t3 := w + " " + t2;
    WordWithoutSpace(w);
    WordThenSpace(w, w);
    var ws2 := Words(t2);
    assert ws2 == [w, w];
    assert t2[0] == w[0];
    WordThenSpace(w, t2);
    var ws3 := Words(t3);
    assert ws3 == [w] + ws2;
    assert ws3 == [w, w, w];
    assert t3[0] == w[0];
    WordThenSpace(w, t3);
    assert Words(text) == [w] + ws3;
  }

  /** The scenario's output is four copies of "cold", one space apart. */
  lemma ColdText()
    ensures "cold cold cold cold" == "cold" + " " + ("cold" + " " + ("cold" + " " + "cold"))
    ensures HasNoSpace("cold")
  {
  }

  /** That output is already trimmed and lowercase. */
  lemma ColdIsNormal()
    ensures Normalize("cold cold cold cold") == "cold cold cold cold"
  {
    var text := "cold cold cold cold";
    assert IsStripped(text);
    assert forall i :: 0 <= i < |text| ==> !IsAsciiUpper(text[i]);
    LowerOfLowercase(text);
  }

  /** "cold" occurs four times, so the filter keeps only "cold". */
  lemma ColdPrediction()
    ensures ExtractPrediction("cold cold cold cold") == Ok("cold")
  {
    var text := "cold cold cold cold";
    assert Normalize(text) == text by {
      ColdIsNormal();
    }
    assert Words(text) == ["cold", "cold", "cold", "cold"] by {
      ColdText();
      FourWords(text, "cold");
    }
    assert Count(Words(text), "cold") == 4;
    RepeatedFirstWord(text);
  }

  /** "cold" is a key of the table. */
  lemma ColdIsKulir()
    ensures Thonglish.Translate("cold") == "kulir"
  {
  }

  /** Repeated output collapses to its first word, which is a key:
      "cold cold cold cold" is predicted as "cold", shown as "kulir". */
  lemma RepeatedColdIsKulir(g: Generator)
    requires g(BuildPrompt("fever, cough, cough, cough, cough")) == Some("cold cold cold cold")
    ensures Handle(Some(g), "fever, cough, cough, cough, cough") == Predicted("cold", "kulir")
  {
    VisibleStartNotBlank("fever, cough, cough, cough, cough");
    HandleSucceeds(g, "fever, cough, cough, cough, cough");
    ColdPrediction();
    ColdIsKulir();
  }

  /** Three words, one space apart, split into those three words. */
  lemma ThreeWords(text: string, a: string, b: string, c: string)
    requires a != [] && HasNoSpace(a) && b != [] && HasNoSpace(b) && c != [] && HasNoSpace(c)
    requires text == a + " " + (b + " " + c)
    ensures Words(text) == [a, b, c]
  {
    WordWithoutSpace(c);
    WordThenSpace(b, c);
    var ws2 := Words(b + " " + c);
    assert ws2 == [b, c];
    assert (b + " " + c)[0] == b[0];
    WordThenSpace(a, b + " " + c);
    assert Words(text) == [a] + ws2;
  }

  /** The scenario's output is three words, one space apart. */
  lemma MigraineText()
    ensures "migraine headache pain" == "migraine" + " " + ("headache" + " " + "pain")
    ensures HasNoSpace("migraine") && HasNoSpace("headache") && HasNoSpace("pain")
  {
  }

  /** That output is already trimmed and lowercase. */
  lemma MigraineIsNormal()
    ensures Normalize("migraine headache pain") == "migraine headache pain"
  {
    var text := "migraine headache pain";
    assert IsStripped(text);
    assert forall i :: 0 <= i < |text| ==> !IsAsciiUpper(text[i]);
    LowerOfLowercase(text);
  }

  /** The first of three words that differ from it occurs once. */
  lemma CountFirstOfThree(a: string, b: string, c: string)
    requires a != b && a != c
    ensures Count([a, b, c], a) == 1
  {
    assert [a, b, c][1..] == [b, c];
    assert [b, c][1..] == [c];
  }

  /** Its first word differs from the other two. */
  lemma MigraineDistinct()
    ensures "migraine" != "headache" && "migraine" != "pain"
  {
    assert "migraine"[0] != "headache"[0];
  }

  /** "migraine" occurs once, so the filter keeps the whole text. */
  lemma MigrainePrediction()
    ensures ExtractPrediction("migraine headache pain") == Ok("migraine headache pain")
  {
    var text := "migraine headache pain";
    assert Normalize(text) == text by {
      MigraineIsNormal();
    }
    assert Words(text) == ["migraine", "headache", "pain"] by {
      MigraineText();
      ThreeWords(text, "migraine", "headache", "pain");
    }
    assert Count(Words(text), "migraine") == 1 by {
      MigraineDistinct();
      CountFirstOfThree("migraine", "headache", "pain");
    }
    UnrepeatedFirstWord(text);
  }

  /** The whole text is not a key of the table. */
  lemma MigraineNoKey()
    ensures Thonglish.Translate("migraine headache pain") == Thonglish.Fallback
  {
  }

  /** Varied output is kept whole, and the whole text is no key:
      "migraine headache pain" gets the fallback transliteration. */
  lemma VariedOutputFallsBack(g: Generator)
    requires g(BuildPrompt("headache")) == Some("migraine headache pain")
    ensures Handle(Some(g), "headache") ==
      Predicted("migraine headache pain", Thonglish.Fallback)
  {
    VisibleStartNotBlank("headache");
    HandleSucceeds(g, "headache");
    MigrainePrediction();
    MigraineNoKey();
  }

  /** Whitespace-only symptoms are refused before the model is asked. */
  lemma WhitespaceSymptomsWarn(g: Generator)
    ensures Handle(Some(g), " \t\n ") == EmptyInput
  {
  }

  /** Without a loaded model every request ends in the same warning. */
  lemma NoModelWarns(symptoms: string)
    ensures Handle(None, symptoms) == ModelUnavailable
  {
  }
}
