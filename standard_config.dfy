/** The preset quiz configurations of `StandardConfig` in
    `controllers/verbquiz.py`, with their lookup `get_config`. */
module StandardConfig {
  import opened Results
  import opened Inflections
  import opened VerbConfig

  /** A key of the preset table. The class attributes are the integers 1 to 5
      and the string "C"; a caller may pass any value, so both kinds occur. */
  datatype ConfigKey = Number(n: int) | Text(s: string)

  const AllPlain: ConfigKey := Number(1)
  const AllPolite: ConfigKey := Number(2)
  const PlainAndPolite: ConfigKey := Number(3)
  const PlainToTeForm: ConfigKey := Number(4)
  const PoliteToTeForm: ConfigKey := Number(5)
  /** The key of a user-built configuration; the preset table has no entry for it. */
  const Custom: ConfigKey := Text("C")

  const AllPlainList: seq<Inflection> := [Plain, NegativePlain, PastPlain, NegativePastPlain]
  const AllPoliteList: seq<Inflection> := [Polite, NegativePolite, PastPolite, NegativePastPolite]
  const PlainAndPoliteList: seq<Inflection> := AllPlainList + AllPoliteList
  const TeFormList: seq<Inflection> := [TeForm]

  /** `STANDARD_CONFIG_DICT`. */
  function StandardConfigDict(): (d: map<ConfigKey, Adjacency>)
    ensures d.Keys == {AllPlain, AllPolite, PlainAndPolite, PlainToTeForm, PoliteToTeForm}
  {
    map[
      AllPlain := MakeBidirectional(AllPlainList),
      AllPolite := MakeBidirectional(AllPoliteList),
      PlainAndPolite := MakeBidirectional(PlainAndPoliteList),
      PlainToTeForm := MakeMonodirectional([Plain], TeFormList),
      PoliteToTeForm := MakeMonodirectional([Polite], TeFormList)
    ]
  }

  /** `get_config`: the preset for one of the five numeric keys, `None` for
      every other key, `Custom` included. */
  function GetConfig(key: ConfigKey): (r: Option<Adjacency>)
    ensures r.Some? <==> key.Number? && 1 <= key.n <= 5
  {
    var presets := StandardConfigDict();
    if key in presets then Some(presets[key]) else None
  }

  /** What `get_config` returns for each preset key, in terms of the two builders. */
  lemma GetConfigEntries()
    ensures GetConfig(AllPlain) == Some(MakeBidirectional(AllPlainList))
    ensures GetConfig(AllPolite) == Some(MakeBidirectional(AllPoliteList))
    ensures GetConfig(PlainAndPolite) == Some(MakeBidirectional(PlainAndPoliteList))
    ensures GetConfig(PlainToTeForm) == Some(MakeMonodirectional([Plain], TeFormList))
    ensures GetConfig(PoliteToTeForm) == Some(MakeMonodirectional([Polite], TeFormList))
  {
    var d := StandardConfigDict();
    assert GetConfig(AllPlain) == Some(MakeBidirectional(AllPlainList)) by {
      assert AllPlain in d;
    }
    assert GetConfig(AllPolite) == Some(MakeBidirectional(AllPoliteList)) by {
      assert AllPolite in d;
    }
    assert GetConfig(PlainAndPolite) == Some(MakeBidirectional(PlainAndPoliteList)) by {
      assert PlainAndPolite in d;
    }
    assert GetConfig(PlainToTeForm) == Some(MakeMonodirectional([Plain], TeFormList)) by {
      assert PlainToTeForm in d;
    }
    assert GetConfig(PoliteToTeForm) == Some(MakeMonodirectional([Polite], TeFormList)) by {
      assert PoliteToTeForm in d;
    }
  }

  /** Every preset `get_config` returns can produce a question: it has a key,
      and each key a target other than itself. */
  lemma PresetsAnswerable(key: ConfigKey)
    requires GetConfig(key).Some?
    ensures Answerable(GetConfig(key).value)
  {
    var adj := GetConfig(key).value;
    if key == AllPlain {
      assert adj == MakeBidirectional(AllPlainList) by { GetConfigEntries(); }
      assert Distinct(AllPlainList) by { PresetListsDistinct(); }
      BidirectionalAnswerable(AllPlainList);
    } else if key == AllPolite {
      assert adj == MakeBidirectional(AllPoliteList) by { GetConfigEntries(); }
      assert Distinct(AllPoliteList) by { PresetListsDistinct(); }
      BidirectionalAnswerable(AllPoliteList);
    } else if key == PlainAndPolite {
      assert adj == MakeBidirectional(PlainAndPoliteList) by { GetConfigEntries(); }
      assert Distinct(PlainAndPoliteList) by { PresetListsDistinct(); }
      BidirectionalAnswerable(PlainAndPoliteList);
    } else if key == PlainToTeForm {
      assert adj == map[Plain := TeFormList] by {
        GetConfigEntries();
        MonodirectionalOfOne(Plain, TeFormList);
      }
      assert Plain in adj;
      WithoutAbsent(TeFormList, Plain);
    } else {
      assert key == PoliteToTeForm;
      assert adj == map[Polite := TeFormList] by {
        GetConfigEntries();
        MonodirectionalOfOne(Polite, TeFormList);
      }
      assert Polite in adj;
      WithoutAbsent(TeFormList, Polite);
    }
  }

  /** A bidirectional map over a list of at least two distinct inflections can
      always produce a question. */
  lemma BidirectionalAnswerable(list: seq<Inflection>)
    requires Distinct(list) && |list| >= 2
    ensures Answerable(MakeBidirectional(list))
  {
    var r := MakeBidirectional(list);
    assert list[0] in r;
    forall k | k in r ensures Without(r[k], k) != [] {
      WithoutAbsent(r[k], k);
      WithoutDistinctLength(list, k);
    }
  }

  /** Filtering each member out of a list of four distinct inflections. */
  lemma WithoutEachOfFour(a: Inflection, b: Inflection, c: Inflection, d: Inflection)
    requires a != b && a != c && a != d && b != c && b != d && c != d
    ensures Without([a, b, c, d], a) == [b, c, d]
    ensures Without([a, b, c, d], b) == [a, c, d]
    ensures Without([a, b, c, d], c) == [a, b, d]
    ensures Without([a, b, c, d], d) == [a, b, c]
  {
    var list := [a, b, c, d];
    assert Without(list, a) == [b, c, d] by {
      assert list == [] + [a] + [b, c, d];
      WithoutOnce([], a, [b, c, d]);
    }
    assert Without(list, b) == [a, c, d] by {
      assert list == [a] + [b] + [c, d];
      WithoutOnce([a], b, [c, d]);
    }
    assert Without(list, c) == [a, b, d] by {
      assert list == [a, b] + [c] + [d];
      WithoutOnce([a, b], c, [d]);
    }
    assert Without(list, d) == [a, b, c] by {
      assert list == [a, b, c] + [d] + [];
      WithoutOnce([a, b, c], d, []);
    }
  }

  /** The bidirectional map over four distinct inflections, written out. */
  lemma BidirectionalOfFour(a: Inflection, b: Inflection, c: Inflection, d: Inflection)
    requires a != b && a != c && a != d && b != c && b != d && c != d
    ensures MakeBidirectional([a, b, c, d])
         == map[a := [b, c, d], b := [a, c, d], c := [a, b, d], d := [a, b, c]]
  {
    WithoutEachOfFour(a, b, c, d);
    var m := MakeBidirectional([a, b, c, d]);
    var want := map[a := [b, c, d], b := [a, c, d], c := [a, b, d], d := [a, b, c]];
    assert m.Keys == want.Keys;
    forall k | k in m ensures m[k] == want[k] {
      if k == a {} else if k == b {} else if k == c {} else {}
    }
    assert m == want;
  }

  /** A one-key monodirectional map, written out. */
  lemma MonodirectionalOfOne(x: Inflection, to: seq<Inflection>)
    ensures MakeMonodirectional([x], to) == map[x := to]
  {
    var m := MakeMonodirectional([x], to);
    assert m.Keys == {x};
  }

  /** No preset list repeats an inflection. */
  lemma PresetListsDistinct()
    ensures Distinct(AllPlainList) && Distinct(AllPoliteList) && Distinct(PlainAndPoliteList)
  {
    var l := PlainAndPoliteList;
    assert l == [Plain, NegativePlain, PastPlain, NegativePastPlain,
                 Polite, NegativePolite, PastPolite, NegativePastPolite];
    forall i, j | 0 <= i < j < |l| ensures l[i] != l[j] {
    }
  }

  /** `ALL_PLAIN` maps each of the four plain inflections to the other three. */
  lemma AllPlainPreset()
    ensures GetConfig(AllPlain) == Some(map[
      Plain := [NegativePlain, PastPlain, NegativePastPlain],
      NegativePlain := [Plain, PastPlain, NegativePastPlain],
      PastPlain := [Plain, NegativePlain, NegativePastPlain],
      NegativePastPlain := [Plain, NegativePlain, PastPlain]])
  {
    GetConfigEntries();
    BidirectionalOfFour(Plain, NegativePlain, PastPlain, NegativePastPlain);
  }

  /** `ALL_POLITE` maps each of the four polite inflections to the other three. */
  lemma AllPolitePreset()
    ensures GetConfig(AllPolite) == Some(map[
      Polite := [NegativePolite, PastPolite, NegativePastPolite],
      NegativePolite := [Polite, PastPolite, NegativePastPolite],
      PastPolite := [Polite, NegativePolite, NegativePastPolite],
      NegativePastPolite := [Polite, NegativePolite, PastPolite]])
  {
    GetConfigEntries();
    BidirectionalOfFour(Polite, NegativePolite, PastPolite, NegativePastPolite);
  }

  /** `PLAIN_AND_POLITE` has every inflection but the te-form as a key, eight
      in all, each with the other seven as targets. */
  lemma PlainAndPolitePreset()
    ensures GetConfig(PlainAndPolite).Some?
    ensures var adj := GetConfig(PlainAndPolite).value;
      && (forall k :: k in adj <==> k != TeForm)
      && |adj.Keys| == 8
      && forall k :: k in adj ==> |adj[k]| == 7 && k !in adj[k]
  {
    GetConfigEntries();
    PresetListsDistinct();
    BidirectionalSizes(PlainAndPoliteList);
    PlainAndPoliteMembers();
  }

  /** The plain and polite list holds every inflection except the te-form. */
  lemma PlainAndPoliteMembers()
    ensures forall k :: k in PlainAndPoliteList <==> k != TeForm
  {
    var l := PlainAndPoliteList;
    assert l == [Plain, NegativePlain, PastPlain, NegativePastPlain,
                 Polite, NegativePolite, PastPolite, NegativePastPolite];
    forall k ensures k in l <==> k != TeForm {
      match k
      case Plain => assert l[0] == k;
      case NegativePlain => assert l[1] == k;
      case PastPlain => assert l[2] == k;
      case NegativePastPlain => assert l[3] == k;
      case Polite => assert l[4] == k;
      case NegativePolite => assert l[5] == k;
      case PastPolite => assert l[6] == k;
      case NegativePastPolite => assert l[7] == k;
      case TeForm =>
    }
  }

  /** `PLAIN_TO_TE_FORM` is exactly plain to te-form. */
  lemma PlainToTeFormPreset()
    ensures GetConfig(PlainToTeForm) == Some(map[Plain := [TeForm]])
  {
    GetConfigEntries();
    MonodirectionalOfOne(Plain, TeFormList);
  }

  /** `POLITE_TO_TE_FORM` is exactly polite to te-form. */
  lemma PoliteToTeFormPreset()
    ensures GetConfig(PoliteToTeForm) == Some(map[Polite := [TeForm]])
  {
    GetConfigEntries();
    MonodirectionalOfOne(Polite, TeFormList);
  }

  /** The result of `All_readable_dict`, written out: every public constant of
      the class that is not a list, a dictionary or callable, keyed by its value,
      with its name title-cased. */
  function ReadableNames(): (names: map<ConfigKey, string>)
    ensures names.Keys == {AllPlain, AllPolite, PlainAndPolite, PlainToTeForm, PoliteToTeForm, Custom}
    ensures forall k :: k in names ==> (GetConfig(k).Some? <==> k != Custom)
  {
    map[
      AllPlain := "All Plain",
      AllPolite := "All Polite",
      PlainAndPolite := "Plain And Polite",
      PlainToTeForm := "Plain To Te Form",
      PoliteToTeForm := "Polite To Te Form",
      Custom := "Custom"
    ]
  }
}
