# Quotation state of the OpenCog AtomSpace

This project models `opencog::Quotation`, the small state machine that a
traversal of the AtomSpace hypergraph carries down each path from a link to its
outgoing set. It is modelled on a Lisp quasiquote, with one restriction: in this
model quote scopes do not nest. A QuoteLink met while unquoted opens a quote
scope, an UnquoteLink at level 1 closes it, and a LocalQuoteLink quotes only the
next step. The state is a quotation level (`_quotation_level`)
and a local-quote flag (`_local_quote`).

The header declares the members but gives no bodies. The comment on `update`
says only that it increments, decrements or changes the local quote depending
on the atom's type. It does not say that this depends on consumability. The
transition written here assumes that it does, following the consumability rules
documented on `consumable_quotation`:

- a consumed QuoteLink increments the level;
- a consumed UnquoteLink decrements it, which happens only at level 1;
- a consumed LocalQuoteLink sets the local flag;
- every other step keeps the level and clears the local flag, because a local
  quote is temporary.

`is_quoted` is read as "level above zero, or locally quoted".

There are two modules:

- `QuotationState` (quotation_state.dfy) holds the state as a value. It defines
  the atom types the machine tells apart, the queries, the consumability
  predicate and the transition `Step`. `Run` folds `Step` over a traversal
  path. The lemmas state what the doc comments promise about one step and what
  follows over whole paths.
- `QuotationClass` (quotation.dfy) holds the class `Quotation` with its two
  mutable fields. `Update` changes them in place, and its contract ties the new
  fields to `Step` of the old ones. The `const` queries and
  `consumable_quotation` are functions that read the object. So
  `consumable_quotation` cannot change either field.

One consequence of this reading is proved as a lemma. A QuoteLink is consumed
only when unquoted, so a path that starts at level 0 or 1 never goes deeper
than level 1 (`RunStaysShallow`). A level of 2 or more can only come from the
constructor, and such a state is frozen: no atom is consumed there
(`RunFrozenWhenDeep`).

## Model

| member | source | states |
|---|---|---|
| QuotationState.Step | opencog/atoms/base/Quotation.h:52-69 | The state handed to the outgoing set keeps the level non-negative and moves it by at most one. Only a QuoteLink raises it. Only an UnquoteLink at level 1 lowers it. The local flag is set only by a LocalQuoteLink met while unquoted. |
| QuotationState.ConsumablePredictsStep | opencog/atoms/base/Quotation.h:58-71 | An atom is consumable exactly when the update moves the level or sets the local flag. An atom that is not consumable only clears the local flag. |
| QuotationState.QuoteLinkRule | opencog/atoms/base/Quotation.h:62-63 | A QuoteLink is consumable iff the state is unquoted. Consuming it takes the root state to level 1, which is quoted. A QuoteLink met while quoted leaves the level unchanged. |
| QuotationState.UnquoteLinkRule | opencog/atoms/base/Quotation.h:65-66 | An UnquoteLink is consumable iff the level is 1. Consuming it goes from quoted to the unquoted root state. At level 0 or at level 2 and above it leaves the level unchanged. |
| QuotationState.LocalQuoteLinkRule | opencog/atoms/base/Quotation.h:68-69 | A LocalQuoteLink is consumable iff the state is unquoted. Consuming it gives (0, true), which is quoted. After the next atom, of any type, the state is unquoted again. |
| QuotationState.OtherTypeRule | opencog/atoms/base/Quotation.h:58-71 | Any other atom type is never consumable. Its update keeps the level and clears the local flag. |
| QuotationState.LocalQuoteLastsOneStep | opencog/atoms/base/Quotation.h:52-69 | If a step sets the local flag, the next step clears it and keeps the level. |
| QuotationState.RunKeepsValid | opencog/atoms/base/Quotation.h:42-56 | Along every sequence of updates from a state with level at least 0, the level never becomes negative. |
| QuotationState.RunStaysShallow | opencog/atoms/base/Quotation.h:52-66 | Along every sequence of updates from level 0 or 1, the level stays within 0 and 1. |
| QuotationState.RunFrozenWhenDeep | opencog/atoms/base/Quotation.h:52-66 | From a state (n, false) with n at least 2, every sequence of updates leaves the state unchanged. |
| QuotationState.RunInsideQuote | opencog/atoms/base/Quotation.h:52-66 | From (1, false), every sequence of updates without an UnquoteLink leaves the state at (1, false). |
| QuotationState.QuoteUnquoteRoundTrip | opencog/atoms/base/Quotation.h:52-66 | From the root state, a QuoteLink makes the state quoted. A QuoteLink followed by an UnquoteLink returns to (0, false). |
| QuotationState.QuotedRegionRoundTrip | opencog/atoms/base/Quotation.h:52-66 | Start from the root state and apply a QuoteLink, then any path without an UnquoteLink, then an UnquoteLink. The result is the root state again. |
| QuotationClass.Quotation.constructor | opencog/atoms/base/Quotation.h:46 | It builds the state (ql, lq) for any ql of at least 0. The defaults (0, false) give the unquoted root state. |
| QuotationClass.Quotation.QuotationLevel | opencog/atoms/base/Quotation.h:48 | It reports the level field. The level is non-negative whenever the object invariant holds. |
| QuotationClass.Quotation.IsLocallyQuoted | opencog/atoms/base/Quotation.h:49 | It reports the local-quote field. |
| QuotationClass.Quotation.IsQuoted | opencog/atoms/base/Quotation.h:50 | Quoted iff the level is above zero or a local quote is pending. Under the invariant, not quoted exactly in the root state (0, false). |
| QuotationClass.Quotation.ConsumableQuotation | opencog/atoms/base/Quotation.h:58-71 | True exactly when `Update` with the same type would move the level or set the local flag. When false, `Update` would only clear the local flag. It reads the object and changes neither field. |
| QuotationClass.Quotation.Update | opencog/atoms/base/Quotation.h:52-56 | The fields become `Step` of the old fields, so it keeps the level non-negative. It decides by consumability in priority order: a QuoteLink increments, an UnquoteLink decrements, a LocalQuoteLink sets the flag, and everything else clears it. |

## Left out

- The host type system (`atom_types.h`, type ids and is-a inheritance) is not part of this model. Atom types are the four-way `AtomType`: the three quotation links and one tag for every other type.
- The traversals, pattern matchers and rewriters that call `update` and the queries are not part of this model. `Run` stands for the sequence of calls along one path.
- C++ `int` overflow of `_quotation_level` is not modelled. The level is an unbounded `int` with the invariant that it is at least 0.
- Copy semantics of `Quotation` values across sibling branches is how callers use the type. It is not modelled.
- Quotation.cc, which holds the member bodies, is not part of this model. The transition is the reading of the header's doc comments given above.
- QuotationClass.Quotation.Update: the header's bodies are not available. So whether a consumed UnquoteLink at state (1, true) also clears the local flag is a modelling choice: it does clear it. Only the constructor can build that state.
- QuotationState.Step: the header does not state that `update` changes the level only for a consumable QuoteLink or UnquoteLink; the model assumes it. As a result a nested QuoteLink never raises the level above 1, and on the path [QuoteLink, QuoteLink, UnquoteLink] the UnquoteLink is consumed and the state returns to (0, false). A counter that moves on every QuoteLink and UnquoteLink, which `int _quotation_level` and the mention of "level of 1" may suggest, would stand at level 2 there instead.
- QuotationClass.Quotation.Update: follows `Step`, so the same assumption applies: the level moves only for a consumable QuoteLink or UnquoteLink, and nested quote scopes are not counted.
- QuotationClass.Quotation.constructor: `requires ql >= 0` excludes negative levels, which the C++ signature `Quotation(int ql=0, bool lq=false)` accepts; the model keeps the level non-negative as its invariant.
