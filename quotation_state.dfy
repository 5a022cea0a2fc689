/** Quotation as a value: the pair (quotation level, local-quote flag) that a
    traversal of the atom hypergraph threads from a link to its outgoing set,
    the transition that `Quotation::update` applies to it, and what follows
    from that transition over whole traversal paths. */
module QuotationState {

  /** The atom types the quotation machinery tells apart. The host type
      system (`atom_types.h`) is abstracted to the three quotation operators
      and one tag for every other type. */
  datatype AtomType = QuoteLink | UnquoteLink | LocalQuoteLink | OtherType

  /** `level` mirrors the C++ `int _quotation_level`, so it is an `int`
      whose non-negativity is an invariant (`Valid`), not a type fact. */
  datatype State = State(level: int, localQuote: bool)

  /** The state at the root of a traversal: unquoted, no local quote. */
  const Unquoted := State(0, false)

  ghost predicate Valid(s: State) {
    s.level >= 0
  }

  predicate IsQuoted(s: State) {
    s.level > 0 || s.localQuote
  }

  /** Would an atom of type `t` be consumed as a quotation operator in
      state `s`: a QuoteLink or LocalQuoteLink when unquoted, an UnquoteLink
      at quotation level exactly 1, nothing else. */
  predicate Consumable(s: State, t: AtomType) {
    match t
    case QuoteLink => !IsQuoted(s)
    case UnquoteLink => s.level == 1
    case LocalQuoteLink => !IsQuoted(s)
    case OtherType => false
  }

  /** The state handed to the outgoing set of an atom of type `t` whose own
      state is `s`. A consumed QuoteLink opens a scope, a consumed
      UnquoteLink closes the one open scope, a consumed LocalQuoteLink sets
      the local flag; every other step keeps the level and drops the local
      flag, since a local quote lasts a single step. */
  function Step(s: State, t: AtomType): (r: State)
    ensures Valid(s) ==> Valid(r)
    ensures s.level - 1 <= r.level <= s.level + 1
    ensures r.localQuote ==> t == LocalQuoteLink && !IsQuoted(s)
    ensures r.level > s.level ==> t == QuoteLink
    ensures r.level < s.level ==> t == UnquoteLink && s.level == 1
  {
    match t
    case QuoteLink =>
      if !IsQuoted(s) then State(s.level + 1, false) else State(s.level, false)
    case UnquoteLink =>
      if s.level == 1 then State(0, false) else State(s.level, false)
    case LocalQuoteLink =>
      if !IsQuoted(s) then State(s.level, true) else State(s.level, false)
    case OtherType =>
      State(s.level, false)
  }

  /** The state after a traversal path whose atoms, root first, have the
      types `ts`: one `update` per descent step. */
  function Run(s: State, ts: seq<AtomType>): State
    decreases |ts|
  {
    if ts == [] then s else Run(Step(s, ts[0]), ts[1..])
  }

  /** `Consumable` agrees with the branch `Step` takes: an atom is consumed
      exactly when the step moves the level or sets the local flag, and an
      atom that is not consumed only drops the local flag. */
  lemma ConsumablePredictsStep(s: State, t: AtomType)
    ensures Consumable(s, t) <==> Step(s, t).level != s.level || Step(s, t).localQuote
    ensures !Consumable(s, t) ==> Step(s, t) == State(s.level, false)
  {
  }

  /** Rule 1: an unquoted QuoteLink is consumed and makes the state quoted;
      a QuoteLink met while quoted is ordinary structure. */
  lemma QuoteLinkRule(s: State)
    requires Valid(s)
    ensures Consumable(s, QuoteLink) <==> !IsQuoted(s)
    ensures Consumable(s, QuoteLink) ==> s == Unquoted && Step(s, QuoteLink) == State(1, false)
    ensures !Consumable(s, QuoteLink) ==> Step(s, QuoteLink) == State(s.level, false)
  {
  }

  /** Rule 2: an UnquoteLink is consumed exactly at level 1, where it takes
      the state from quoted to unquoted; at level 0 or at level 2 and above
      it is inert and keeps the level. */
  lemma UnquoteLinkRule(s: State)
    ensures Consumable(s, UnquoteLink) <==> s.level == 1
    ensures Consumable(s, UnquoteLink) ==> IsQuoted(s) && Step(s, UnquoteLink) == Unquoted
    ensures s.level != 1 ==> Step(s, UnquoteLink) == State(s.level, false)
  {
  }

  /** Rule 3: an unquoted LocalQuoteLink is consumed and makes the state
      quoted only temporarily: whatever atom comes next, the state after it
      is unquoted again. */
  lemma LocalQuoteLinkRule(s: State)
    requires Valid(s)
    ensures Consumable(s, LocalQuoteLink) <==> !IsQuoted(s)
    ensures Consumable(s, LocalQuoteLink) ==>
      Step(s, LocalQuoteLink) == State(0, true) && IsQuoted(Step(s, LocalQuoteLink))
    ensures Consumable(s, LocalQuoteLink) ==>
      forall u :: Step(Step(s, LocalQuoteLink), u) == Unquoted
  {
  }

  /** Every other type is never consumed and only drops the local flag. */
  lemma OtherTypeRule(s: State)
    ensures !Consumable(s, OtherType)
    ensures Step(s, OtherType) == State(s.level, false)
  {
  }

  /** A local quote never survives two consecutive steps. */
  lemma LocalQuoteLastsOneStep(s: State, t: AtomType, u: AtomType)
    requires Step(s, t).localQuote
    ensures !Step(Step(s, t), u).localQuote
    ensures Step(Step(s, t), u).level == Step(s, t).level
  {
  }

  /** Splitting a path splits its run. */
  lemma {:induction false} RunAppend(s: State, a: seq<AtomType>, b: seq<AtomType>)
    ensures Run(s, a + b) == Run(Run(s, a), b)
    decreases |a|
  {
    if a == [] {
      assert a + b == b;
    } else {
      assert (a + b)[0] == a[0];
      assert (a + b)[1..] == a[1..] + b;
      RunAppend(Step(s, a[0]), a[1..], b);
    }
  }

  /** Along any path the quotation level never becomes negative. */
  lemma {:induction false} RunKeepsValid(s: State, ts: seq<AtomType>)
    requires Valid(s)
    ensures Valid(Run(s, ts))
    decreases |ts|
  {
    if ts != [] {
      RunKeepsValid(Step(s, ts[0]), ts[1..]);
    }
  }

  /** Since a QuoteLink is consumed only when unquoted, a path that starts at
      level 0 or 1 never goes deeper than level 1. */
  lemma {:induction false} RunStaysShallow(s: State, ts: seq<AtomType>)
    requires 0 <= s.level <= 1
    ensures 0 <= Run(s, ts).level <= 1
    decreases |ts|
  {
    if ts != [] {
      RunStaysShallow(Step(s, ts[0]), ts[1..]);
    }
  }

  /** At level 2 and above no atom is consumed, so a state without a local
      quote is left exactly as it is by every path. */
  lemma {:induction false} RunFrozenWhenDeep(n: int, ts: seq<AtomType>)
    requires n >= 2
    ensures Run(State(n, false), ts) == State(n, false)
    decreases |ts|
  {
    if ts != [] {
      RunFrozenWhenDeep(n, ts[1..]);
    }
  }

  /** Inside one open quote scope, a path without an UnquoteLink keeps the
      state at (1, false): nested QuoteLinks and LocalQuoteLinks are data. */
  lemma {:induction false} RunInsideQuote(ts: seq<AtomType>)
    requires UnquoteLink !in ts
    ensures Run(State(1, false), ts) == State(1, false)
    decreases |ts|
  {
    if ts != [] {
      assert ts[0] != UnquoteLink;
      assert UnquoteLink !in ts[1..] by {
        assert forall i :: 0 <= i < |ts[1..]| ==> ts[1..][i] == ts[i + 1];
      }
      RunInsideQuote(ts[1..]);
    }
  }

  /** The quasiquote round trip over a whole quoted region: a QuoteLink, any
      path without an UnquoteLink, then an UnquoteLink, brings the root state
      back to unquoted. */
  lemma {:induction false} QuotedRegionRoundTrip(ts: seq<AtomType>)
    requires UnquoteLink !in ts
    ensures Run(Unquoted, [QuoteLink] + ts + [UnquoteLink]) == Unquoted
  {
    RunAppend(Unquoted, [QuoteLink] + ts, [UnquoteLink]);
    RunAppend(Unquoted, [QuoteLink], ts);
    assert Run(Unquoted, [QuoteLink]) == State(1, false);
    RunInsideQuote(ts);
    assert Run(State(1, false), [UnquoteLink]) == Unquoted;
  }

  /** The shortest quoted region: a QuoteLink makes the root state quoted,
      and the UnquoteLink right after it makes it unquoted again. */
  lemma QuoteUnquoteRoundTrip()
    ensures IsQuoted(Step(Unquoted, QuoteLink))
    ensures Run(Unquoted, [QuoteLink, UnquoteLink]) == Unquoted
  {
    QuotedRegionRoundTrip([]);
    assert [QuoteLink] + [] + [UnquoteLink] == [QuoteLink, UnquoteLink];
  }
}
