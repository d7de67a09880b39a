/**
 The fixed table from canonical (lowercase English) disease names to their
 Thonglish transliteration, and the exact-match lookup with its fallback.
 The table is built once and never changed.
 */
module Thonglish {
  import opened Text

  /** Shown when the prediction is not a key of the table
      ("no medical explanation available"). */
  const Fallback: string := "maruthuva vilakkam kedaiyadhu"

  /** `thonglish_dict`: sixteen entries, keys unique. */
  const Table: map<string, string> := map[
    "flu" := "flu",
    "cold" := "kulir",
    "pneumonia" := "nimoniyaa",
    "malaria" := "maleriya",
    "dengue" := "dengu",
    "typhoid" := "taifoidu",
    "covid-19" := "korona",
    "diabetes" := "neerizhivu",
    "asthma" := "asthuma",
    "tuberculosis" := "kaasanoy",
    "migraine" := "thalai vali",
    "rheumatoid arthritis" := "rheumatoid arthritis",
    "chickenpox" := "chikkan paks",
    "measles" := "saruma nooy",
    "jaundice" := "manjal kaamalai",
    "anemia" := "iratha sogai"
  ]

  /** No configured transliteration is the fallback text itself. */
  lemma FallbackIsNoValue()
    ensures forall k :: k in Table ==> Table[k] != Fallback
  {
  }

  /** `thonglish_dict.get(name, fallback)`: exact match only. Getting the
      fallback back means exactly that the name is not a key. */
  function Translate(name: string): (r: string)
    ensures name in Table ==> r == Table[name]
    ensures r == Fallback <==> name !in Table
  {
    FallbackIsNoValue();
    if name in Table then Table[name] else Fallback
  }

  /** "rheumatoid arthritis" is the one key with whitespace inside it. */
  lemma OnlyMultiWordKey()
    ensures forall k :: k in Table && !HasNoSpace(k) ==> k == "rheumatoid arthritis"
  {
  }

  /** That key splits into two different words. */
  lemma MultiWordKeySplit()
    ensures !HasNoSpace("rheumatoid arthritis")
    ensures Words("rheumatoid arthritis") == ["rheumatoid", "arthritis"]
  {
    var first, second := "rheumatoid", "arthritis";
    assert "rheumatoid arthritis" == first + " " + second;
    assert HasNoSpace(first) && HasNoSpace(second);
    TwoWords(first, second);
  }
}
