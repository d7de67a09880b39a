/**
 The request-handling rule of the symptom-to-disease demo: the guard that
 decides whether a "Predict Disease" press reaches the model, the prompt sent
 to it, the post-processing of the generated text, and the translation of the
 prediction.
 */
module Predictor {
  import opened Text
  import Thonglish

  datatype Option<T> = None | Some(value: T)

  /** What can go wrong inside the `try` block of a request. */
  datatype Error =
    | GenerationError  // the text-generation pipeline raised
    | NoFirstWord      // `words[0]` on an empty list of words (IndexError)

  datatype Result<T> = Ok(value: T) | Err(error: Error)

  /** The text-generation pipeline, seen only as a function from the prompt
      to its generated text; None when the call raised. */
  type Generator = string -> Option<string>

  /** What one press of the button ends in. */
  datatype Outcome =
    | ModelUnavailable                              // warning: model not available
    | EmptyInput                                    // warning: enter some symptoms first
    | InferenceFailed(error: Error)                 // error: something went wrong during prediction
    | Predicted(english: string, thonglish: string) // success: both labels shown

  const PromptPrefix: string := "Predict the disease based on these symptoms: "

  /** The instruction sent to the model: the fixed prefix, then the symptom
      text exactly as typed (it is not trimmed). */
  function BuildPrompt(symptoms: string): (prompt: string)
    ensures |prompt| == |PromptPrefix| + |symptoms|
    ensures PromptPrefix <= prompt
    ensures prompt[|PromptPrefix|..] == symptoms
  {
    PromptPrefix + symptoms
  }

  /** Different symptom texts give different prompts: in particular the
      whitespace around the symptoms reaches the model. */
  lemma BuildPromptInjective(a: string, b: string)
    ensures BuildPrompt(a) == BuildPrompt(b) <==> a == b
  {
    if BuildPrompt(a) == BuildPrompt(b) {
      assert a == BuildPrompt(a)[|PromptPrefix|..];
    }
  }

  /** `generated_text.strip().lower()`. */
  function Normalize(generated: string): (r: string)
    ensures IsStripped(r)
    ensures r == [] <==> IsBlank(generated)
    ensures |r| <= |generated|
    ensures forall i :: 0 <= i < |r| ==> !IsAsciiUpper(r[i])
  {
    var t := Trim(generated);
    LowerKeepsShape(t);
    Lower(t)
  }

  /** Normalising normalised text changes nothing. */
  lemma NormalizeIdempotent(generated: string)
    ensures Normalize(Normalize(generated)) == Normalize(generated)
  {
    var r := Normalize(generated);
    assert Trim(r) == r;
    LowerOfLowercase(r);
  }

  /** The repetition filter: split the normalised text into words; if the
      first word occurs more than twice, predict that word, otherwise the
      whole normalised text. Blank text has no first word and fails. */
  function ExtractPrediction(generated: string): (r: Result<string>)
    ensures r.Err? <==> IsBlank(generated)
    ensures r.Err? ==> r.error == NoFirstWord
    ensures r.Ok? ==> r.value != [] && r.value <= Normalize(generated)
    ensures r.Ok? ==> r.value == Normalize(generated) || HasNoSpace(r.value)
  {
    var result := Normalize(generated);
    var words := Words(result);
    if words == [] then
      Err(NoFirstWord)
    else
      FirstWordIsPrefix(result);
      if Count(words, words[0]) > 2 then Ok(words[0]) else Ok(result)
  }

  /** Degenerate repetition: a first word seen more than twice is the
      prediction, and it is one whitespace-free word. */
  lemma RepeatedFirstWord(generated: string)
    requires Words(Normalize(generated)) != []
    requires Count(Words(Normalize(generated)), Words(Normalize(generated))[0]) > 2
    ensures ExtractPrediction(generated) == Ok(Words(Normalize(generated))[0])
    ensures HasNoSpace(ExtractPrediction(generated).value)
  {
  }

  /** A first word seen at most twice leaves the whole normalised text as
      the prediction. */
  lemma UnrepeatedFirstWord(generated: string)
    requires Words(Normalize(generated)) != []
    requires Count(Words(Normalize(generated)), Words(Normalize(generated))[0]) <= 2
    ensures ExtractPrediction(generated) == Ok(Normalize(generated))
  {
  }

  /** One word of output is returned as it is: the two branches of the
      filter agree on it. */
  lemma SingleWordOutput(generated: string)
    requires |Words(Normalize(generated))| == 1
    ensures ExtractPrediction(generated) == Ok(Normalize(generated))
    ensures Words(Normalize(generated))[0] == Normalize(generated)
  {
    SingleWordIsWhole(Normalize(generated));
  }

  /** Filtering a prediction once more gives it back. */
  lemma ExtractPredictionIdempotent(generated: string)
    requires ExtractPrediction(generated).Ok?
    ensures ExtractPrediction(ExtractPrediction(generated).value) == ExtractPrediction(generated)
  {
    var p := ExtractPrediction(generated).value;
    var result := Normalize(generated);
    NormalizeIdempotent(generated);
    if p != result {
      assert forall i :: 0 <= i < |p| ==> p[i] == result[i];
      LowerOfLowercase(p);
      assert Trim(p) == p;
      WordWithoutSpace(p);
      assert Words(Normalize(p)) == [p];
    }
  }

  /** A multi-word prediction, such as the key "rheumatoid arthritis", is
      only ever the whole normalised text, never the repetition branch. */
  lemma MultiWordPredictionIsWhole(generated: string)
    requires ExtractPrediction(generated).Ok?
    requires !HasNoSpace(ExtractPrediction(generated).value)
    ensures ExtractPrediction(generated).value == Normalize(generated)
  {
  }

  /** The only way to the translation of "rheumatoid arthritis" is output
      that normalises to exactly that text. */
  lemma RheumatoidArthritisOnlyWhole(generated: string)
    requires ExtractPrediction(generated) == Ok("rheumatoid arthritis")
    ensures Normalize(generated) == "rheumatoid arthritis"
  {
    Thonglish.MultiWordKeySplit();
    MultiWordPredictionIsWhole(generated);
  }

  /** Output that normalises to a key of the table is predicted as that key. */
  lemma KeyOutputPredicted(generated: string)
    requires Normalize(generated) in Thonglish.Table
    ensures ExtractPrediction(generated) == Ok(Normalize(generated))
  {
    var k := Normalize(generated);
    Thonglish.OnlyMultiWordKey();
    if HasNoSpace(k) {
      assert k != [] by { assert !IsBlank(generated); }
      WordWithoutSpace(k);
    } else {
      Thonglish.MultiWordKeySplit();
      assert Count(Words(k), Words(k)[0]) == 1;
    }
  }

  /** One press of the button: no model, then blank symptoms, are checked
      first; only then is the model asked, and any failure while generating
      or post-processing ends the request with an error. */
  function Handle(pipe: Option<Generator>, symptoms: string): (o: Outcome)
    ensures o == ModelUnavailable <==> pipe.None?
    ensures pipe.Some? ==> (o == EmptyInput <==> IsBlank(symptoms))
    ensures pipe.Some? && !IsBlank(symptoms) && pipe.value(BuildPrompt(symptoms)).None? ==>
      o == InferenceFailed(GenerationError)
    ensures o.Predicted? || o.InferenceFailed? ==> pipe.Some? && !IsBlank(symptoms)
    ensures o.Predicted? ==> o.english != [] && o.thonglish == Thonglish.Translate(o.english)
  {
    if pipe.None? then ModelUnavailable
    else if Trim(symptoms) == [] then EmptyInput
    else match pipe.value(BuildPrompt(symptoms))
      case None => InferenceFailed(GenerationError)
      case Some(text) =>
        match ExtractPrediction(text)
        case Err(e) => InferenceFailed(e)
        case Ok(prediction) => Predicted(prediction, Thonglish.Translate(prediction))
  }

  /** Blank symptoms never reach the model: any two generators give the
      same warning. */
  lemma BlankSymptomsSkipModel(g1: Generator, g2: Generator, symptoms: string)
    requires IsBlank(symptoms)
    ensures Handle(Some(g1), symptoms) == Handle(Some(g2), symptoms) == EmptyInput
  {
  }

  /** The model is consulted on one prompt only, BuildPrompt(symptoms):
      generators that agree there give the same outcome. */
  lemma ModelAskedOnlyThePrompt(g1: Generator, g2: Generator, symptoms: string)
    requires g1(BuildPrompt(symptoms)) == g2(BuildPrompt(symptoms))
    ensures Handle(Some(g1), symptoms) == Handle(Some(g2), symptoms)
  {
  }

  /** A request succeeds exactly when a model is loaded, the symptoms are not
      blank, generation does not raise and its text is not blank; the labels
      shown are then the filtered prediction and its translation. */
  lemma HandleSucceeds(g: Generator, symptoms: string)
    ensures Handle(Some(g), symptoms).Predicted? <==>
      !IsBlank(symptoms) && g(BuildPrompt(symptoms)).Some? && !IsBlank(g(BuildPrompt(symptoms)).value)
    ensures Handle(Some(g), symptoms).Predicted? ==>
      var p := ExtractPrediction(g(BuildPrompt(symptoms)).value).value;
      Handle(Some(g), symptoms) == Predicted(p, Thonglish.Translate(p))
  {
  }

  /** Blank generated text ends the request on the error path and shows no
      prediction. */
  lemma BlankGenerationFails(g: Generator, symptoms: string)
    requires !IsBlank(symptoms)
    requires g(BuildPrompt(symptoms)).Some? && IsBlank(g(BuildPrompt(symptoms)).value)
    ensures Handle(Some(g), symptoms) == InferenceFailed(NoFirstWord)
  {
  }

  /** Every entry of the table can be shown: output that normalises to a key
      yields that key and its configured transliteration. */
  lemma KeyOutputTranslated(g: Generator, symptoms: string)
    requires !IsBlank(symptoms) && g(BuildPrompt(symptoms)).Some?
    requires Normalize(g(BuildPrompt(symptoms)).value) in Thonglish.Table
    ensures var k := Normalize(g(BuildPrompt(symptoms)).value);
      Handle(Some(g), symptoms) == Predicted(k, Thonglish.Table[k])
  {
    KeyOutputPredicted(g(BuildPrompt(symptoms)).value);
  }
}
