/** The closed set of inflections a verb can be quizzed on: the nine names the
    presets of `controllers/verbquiz.py` use from `verbs.Inflections`. */
module Inflections {

  datatype Inflection =
    | Plain
    | NegativePlain
    | PastPlain
    | NegativePastPlain
    | Polite
    | NegativePolite
    | PastPolite
    | NegativePastPolite
    | TeForm

  /** Every inflection once, in declaration order. */
  function AllInflections(): seq<Inflection> {
    [Plain, NegativePlain, PastPlain, NegativePastPlain,
     Polite, NegativePolite, PastPolite, NegativePastPolite, TeForm]
  }

  /** The enumeration is complete: no inflection is missing from it. */
  lemma AllInflectionsComplete()
    ensures forall x: Inflection :: x in AllInflections()
  {
    var all := AllInflections();
    forall x: Inflection ensures x in all {
      match x
      case Plain => assert all[0] == x;
      case NegativePlain => assert all[1] == x;
      case PastPlain => assert all[2] == x;
      case NegativePastPlain => assert all[3] == x;
      case Polite => assert all[4] == x;
      case NegativePolite => assert all[5] == x;
      case PastPolite => assert all[6] == x;
      case NegativePastPolite => assert all[7] == x;
      case TeForm => assert all[8] == x;
    }
  }
}
