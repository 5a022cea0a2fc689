/** The `Quotation` object a traversal carries along one path of the atom
    hypergraph and updates in place before handing it to an outgoing set. */
module QuotationClass {
  import opened QuotationState

  class Quotation {
    var quotationLevel: int
    var localQuote: bool

    /** The level never drops below zero. */
    ghost predicate Valid()
      reads this
    {
      QuotationState.Valid(Value())
    }

    /** The value of the two fields. */
    function Value(): State
      reads this
    {
      State(quotationLevel, localQuote)
    }

    /** A fresh quotation; with the default arguments it is the unquoted
        root state. */
    constructor (ql: int := 0, lq: bool := false)
      requires ql >= 0
      ensures Valid()
      ensures Value() == State(ql, lq)
      ensures ql == 0 && !lq ==> !IsQuoted() && Value() == Unquoted
    {
      quotationLevel := ql;
      localQuote := lq;
    }

    function QuotationLevel(): (r: int)
      reads this
      ensures r == Value().level
      ensures Valid() ==> r >= 0
    {
      quotationLevel
    }

    function IsLocallyQuoted(): (r: bool)
      reads this
      ensures r == Value().localQuote
    {
      localQuote
    }

    /** Quoted by an open quote scope or by a pending local quote; under the
        invariant, unquoted exactly in the root state. */
    function IsQuoted(): (r: bool)
      reads this
      ensures r <==> QuotationLevel() > 0 || IsLocallyQuoted()
      ensures Valid() ==> (!r <==> Value() == Unquoted)
    {
      QuotationState.IsQuoted(Value())
    }

    /** Whether an atom of type `t` would be consumed by `Update`: exactly
        when `Update(t)` would move the level or set the local flag. Being a
        function, it changes neither field. */
    function ConsumableQuotation(t: AtomType): (r: bool)
      reads this
      ensures r <==> Step(Value(), t).level != quotationLevel || Step(Value(), t).localQuote
      ensures !r ==> Step(Value(), t) == State(quotationLevel, false)
    {
      ConsumablePredictsStep(Value(), t);
      Consumable(Value(), t)
    }

    /** Turns this quotation into the one handed to the outgoing set of an
        atom of type `t`: a consumed QuoteLink increments the level, a
        consumed UnquoteLink decrements it, a consumed LocalQuoteLink sets the
        local flag, and any other step clears the local flag. */
    method Update(t: AtomType)
      modifies this
      ensures old(Valid()) ==> Valid()
      ensures Value() == Step(old(Value()), t)
    {
      var consumed := ConsumableQuotation(t);
      if consumed && t == QuoteLink {
        quotationLevel := quotationLevel + 1;
      } else if consumed && t == UnquoteLink {
        quotationLevel := quotationLevel - 1;
      }
      localQuote := consumed && t == LocalQuoteLink;
    }
  }
}
