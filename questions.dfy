/** Question selection: `VerbQuizController.make_question` of
    `controllers/verbquiz.py`. */
module Questions {
  import opened Results
  import opened Inflections
  import opened VerbConfig

  /** One of the two closures of a question,
      `lambda o: o.get_inflection(inflection, kanji=kanji, kana=kana)`, named
      by what it conjugates a verb to. The conjugation engine itself is not
      part of this model. */
  datatype Conjugation = Conjugation(inflection: Inflection, kanji: bool, kana: bool)

  /** The dictionary `make_question` returns: the verb (`"data"`), the
      inflection asked for, and the closures computing the expected answer and
      the form shown to the learner. */
  datatype Question<V> = Question(data: V, askingFor: Inflection, answer: Conjugation, predicateForm: Conjugation)

  /** Where the random choices of one call land: a draw for each
      `random.choice` and one for the vocabulary store's own pick. */
  datatype Draw = Draw(key: nat, target: nat, verb: nat)

  /** Which `random.choice` was handed an empty list (an `IndexError` in the
      source): the configuration has no key, or the chosen key has no target
      other than itself. */
  datatype QuestionError = NoInflections | NoTargets

  /** The verb store, `db.get_verb(jlpt=level)`: a verb for a JLPT level
      (possibly `None`) and a draw standing for the store's random pick. */
  type Vocabulary<V> = (Option<int>, nat) -> V

  /** `random.choice(xs)`: the element at the drawn position, or `None` (an
      `IndexError`) when `xs` is empty. Any draw lands on a valid position. */
  function Choose<T>(xs: seq<T>, draw: nat): (r: Option<T>)
    ensures r.None? <==> xs == []
    ensures r.Some? ==> r.value in xs
  {
    if xs == [] then None else Some(xs[draw % |xs|])
  }

  /** Every element of a list is the outcome of some draw. */
  lemma ChooseReaches<T>(xs: seq<T>, x: T) returns (draw: nat)
    requires x in xs
    ensures Choose(xs, draw) == Some(x)
  {
    var i :| 0 <= i < |xs| && xs[i] == x;
    draw := i;
  }

  /** The inflections of `xs` that are keys of `adj`, in the order of `xs`. */
  function KeysAmong(xs: seq<Inflection>, adj: Adjacency): seq<Inflection> {
    if xs == [] then []
    else (if xs[0] in adj then [xs[0]] else []) + KeysAmong(xs[1..], adj)
  }

  /** The filtered list holds exactly the keys among `xs`. */
  lemma {:induction false} KeysAmongMembers(xs: seq<Inflection>, adj: Adjacency)
    ensures forall k :: k in KeysAmong(xs, adj) <==> k in xs && k in adj
  {
    if xs != [] {
      KeysAmongMembers(xs[1..], adj);
      assert xs == [xs[0]] + xs[1..];
    }
  }

  /** `list(adj.keys())`: the keys of the configuration. */
  function KeyList(adj: Adjacency): (ks: seq<Inflection>)
    ensures forall k :: k in ks <==> k in adj
  {
    AllInflectionsComplete();
    KeysAmongMembers(AllInflections(), adj);
    KeysAmong(AllInflections(), adj)
  }

  /** `make_question`: pick a predicate inflection among the keys, drop the
      predicate from its targets, pick the inflection asked for among the
      rest, and fetch a verb for the configured level. */
  function MakeQuestion<V>(adj: Adjacency, jlpt: Option<int>, store: Vocabulary<V>, draw: Draw)
    : (r: Result<Question<V>, QuestionError>)
    ensures r == Err(NoInflections) <==> adj == map[]
    ensures r == Err(NoTargets) ==> exists p :: p in adj && Without(adj[p], p) == []
    ensures Answerable(adj) ==> r.Ok?
    ensures r.Ok? ==>
      var q := r.value;
      && q.predicateForm.inflection in adj
      && q.askingFor in adj[q.predicateForm.inflection]
      && q.askingFor != q.predicateForm.inflection
      && q.answer == Conjugation(q.askingFor, true, true)
      && q.predicateForm.kanji && q.predicateForm.kana
      && q.data == store(jlpt, draw.verb)
  {
    match Choose(KeyList(adj), draw.key)
    case None => Err(NoInflections)
    case Some(pred) =>
      match Choose(Without(adj[pred], pred), draw.target)
      case None => Err(NoTargets)
      case Some(askingFor) =>
        Ok(Question(store(jlpt, draw.verb), askingFor,
                    Conjugation(askingFor, true, true), Conjugation(pred, true, true)))
  }

  /** Every admissible pair is asked with some draw: any key `p` and any
      target `t` of `p` other than `p` itself can come out as predicate and
      inflection asked for. */
  lemma MakeQuestionReaches<V>(adj: Adjacency, jlpt: Option<int>, store: Vocabulary<V>, p: Inflection, t: Inflection)
    returns (draw: Draw)
    requires p in adj && t in adj[p] && t != p
    ensures MakeQuestion(adj, jlpt, store, draw).Ok?
    ensures MakeQuestion(adj, jlpt, store, draw).value.predicateForm.inflection == p
    ensures MakeQuestion(adj, jlpt, store, draw).value.askingFor == t
  {
    var dp := ChooseReaches(KeyList(adj), p);
    var dt := ChooseReaches(Without(adj[p], p), t);
    draw := Draw(dp, dt, 0);
  }

  /** A key whose targets are all the key itself fails every draw that
      picks it, and some draw picks it. */
  lemma SelfOnlyKeyFails<V>(adj: Adjacency, jlpt: Option<int>, store: Vocabulary<V>, p: Inflection)
    returns (draw: Draw)
    requires p in adj && Without(adj[p], p) == []
    ensures MakeQuestion(adj, jlpt, store, draw) == Err(NoTargets)
  {
    var keys := KeyList(adj);
    var dp := ChooseReaches(keys, p);
    assert Choose(keys, dp) == Some(p);
    assert Choose(Without(adj[p], p), 0) == None;
    draw := Draw(dp, 0, 0);
  }

  /** An unanswerable configuration fails on some draw: on every draw when it
      is empty, and otherwise on a draw that picks a key whose targets are all
      the key itself. */
  lemma UnanswerableFails<V>(adj: Adjacency, jlpt: Option<int>, store: Vocabulary<V>) returns (draw: Draw)
    requires !Answerable(adj)
    ensures MakeQuestion(adj, jlpt, store, draw).Err?
  {
    if adj == map[] {
      draw := Draw(0, 0, 0);
    } else {
      var p :| p in adj && Without(adj[p], p) == [];
      draw := SelfOnlyKeyFails(adj, jlpt, store, p);
    }
  }

  /** A configuration produces a question on every draw exactly when it is
      answerable. */
  lemma AnswerableExactly<V>(adj: Adjacency, jlpt: Option<int>, store: Vocabulary<V>)
    ensures Answerable(adj) <==> forall draw :: MakeQuestion(adj, jlpt, store, draw).Ok?
  {
    if !Answerable(adj) {
      var draw := UnanswerableFails(adj, jlpt, store);
    }
  }

  /** The configuration `{PLAIN: [POLITE, NEGATIVE_POLITE]}` always yields a
      question on a plain form, asking for one of the two polite forms. */
  lemma PlainToPoliteQuestion<V>(jlpt: Option<int>, store: Vocabulary<V>, draw: Draw)
    ensures var r := MakeQuestion(map[Plain := [Polite, NegativePolite]], jlpt, store, draw);
      && r.Ok?
      && r.value.askingFor in [Polite, NegativePolite]
      && r.value.answer == Conjugation(r.value.askingFor, true, true)
      && r.value.predicateForm == Conjugation(Plain, true, true)
  {
    var adj := map[Plain := [Polite, NegativePolite]];
    assert Answerable(adj) by {
      assert Plain in adj;
      forall k | k in adj ensures Without(adj[k], k) != [] {
        WithoutAbsent(adj[Plain], Plain);
      }
    }
  }
}
