/** `getPronouns`: the suffix shown after a chatter's name, built from the
    pronoun service's answer (an input) and a fixed table. */
module Pronouns {
  import opened Wrappers

  datatype Pronoun = Pronoun(name: string, subject: string, objectForm: string, singular: bool)

  /** `pronounIds`, keyed by id. */
  const PronounIds: map<string, Pronoun> := map[
    "aeaer" := Pronoun("aeaer", "Ae", "Aer", false),
    "any" := Pronoun("any", "Any", "Any", true),
    "eem" := Pronoun("eem", "E", "Em", false),
    "faefaer" := Pronoun("faefaer", "Fae", "Faer", false),
    "hehim" := Pronoun("hehim", "He", "Him", false),
    "itits" := Pronoun("itits", "It", "Its", false),
    "other" := Pronoun("other", "Other", "Other", true),
    "perper" := Pronoun("perper", "Per", "Per", false),
    "sheher" := Pronoun("sheher", "She", "Her", false),
    "theythem" := Pronoun("theythem", "They", "Them", false),
    "vever" := Pronoun("vever", "Ve", "Ver", false),
    "xexem" := Pronoun("xexem", "Xe", "Xem", false),
    "ziehir" := Pronoun("ziehir", "Zie", "Hir", false)
  ]

  /** The service's answer: the main and alternative ids, either of which
      may be absent. */
  datatype Response = Response(pronounId: Option<string>, altPronounId: Option<string>)

  function LookupPronoun(id: Option<string>): (r: Option<Pronoun>)
    ensures r.Some? <==> id.Some? && id.value in PronounIds
    ensures r.Some? ==> r.value == PronounIds[id.value]
  {
    if id.Some? && id.value in PronounIds then Some(PronounIds[id.value]) else None
  }

  /** `getPronouns`. `fetched` is `Failure` when the request or its JSON
      rejects, and `Success(None)` for a falsy body. An unknown main id
      makes `mainPronouns.subject` throw, which the `catch` turns into "";
      an unknown alternative id falls back to the main object. */
  function GetPronouns(fetched: Result<Option<Response>>): (r: string)
    ensures r != "" <==> fetched.Success? && fetched.value.Some? && LookupPronoun(fetched.value.value.pronounId).Some?
    ensures r != "" ==> |r| >= 4 && r[..2] == " (" && r[|r| - 1] == ')'
  {
    match fetched
    case Failure(_) => ""
    case Success(None) => ""
    case Success(Some(resp)) =>
      match LookupPronoun(resp.pronounId)
      case None => ""
      case Some(main) =>
        var obj := match LookupPronoun(resp.altPronounId)
                   case Some(alt) => alt.objectForm
                   case None => main.objectForm;
        " (" + main.subject + "/" + obj + ")"
  }

  /** Every table entry is keyed by its own name and has a non-empty
      subject and object. */
  lemma TableKeyedByName()
    ensures forall id :: id in PronounIds ==> PronounIds[id].name == id
    ensures forall id :: id in PronounIds ==> PronounIds[id].subject != "" && PronounIds[id].objectForm != ""
  {
  }

  /** The suffix is the main subject over the alternative object, or over
      the main object when the alternative is absent or unknown. */
  lemma SuffixShape(main: string, alt: Option<string>)
    requires main in PronounIds
    ensures GetPronouns(Success(Some(Response(Some(main), alt)))) ==
            " (" + PronounIds[main].subject + "/" +
            (if alt.Some? && alt.value in PronounIds then PronounIds[alt.value].objectForm else PronounIds[main].objectForm) + ")"
  {
  }

  lemma Examples()
    ensures GetPronouns(Success(Some(Response(Some("sheher"), None)))) == " (She/Her)"
    ensures GetPronouns(Success(Some(Response(Some("hehim"), Some("theythem"))))) == " (He/Them)"
  {
    assert LookupPronoun(Some("sheher")) == Some(Pronoun("sheher", "She", "Her", false));
    assert LookupPronoun(Some("hehim")) == Some(Pronoun("hehim", "He", "Him", false));
    assert LookupPronoun(Some("theythem")) == Some(Pronoun("theythem", "They", "Them", false));
  }

  /** An unknown alternative id falls back to the main object; an unknown
      main id yields no suffix at all. */
  lemma UnknownIds()
    ensures GetPronouns(Success(Some(Response(Some("hehim"), Some("nonsense"))))) == " (He/Him)"
    ensures GetPronouns(Success(Some(Response(Some("nonsense"), Some("sheher"))))) == ""
  {
    assert LookupPronoun(Some("hehim")) == Some(Pronoun("hehim", "He", "Him", false));
    assert LookupPronoun(Some("nonsense")) == None;
  }
}
