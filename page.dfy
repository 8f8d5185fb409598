/**
 * The page controller (src/pages/Index.tsx): which quote is displayed,
 * whether the creation form is open, and the handlers that move between
 * these states through the quote store.
 */
module Page {
  import opened Quotes
  import opened Storage

  /** The injected random draws fall in range: `i` indexes the collection, `j` the collection without the current id. */
  predicate DrawsInRange(qs: seq<Quote>, current: Option<Quote>, i: nat, j: nat) {
    && (qs != [] ==> i < |qs|)
    && (current.Some? && WithoutId(qs, current.value.id) != [] ==> j < |WithoutId(qs, current.value.id)|)
  }

  /**
   * The quote handleNewQuote displays: the first draw, unless it has the
   * displayed quote's id and there is more than one quote, in which case a
   * second draw among the quotes with another id (undefined, that is
   * nothing, when there are none).
   */
  function NextDisplay(qs: seq<Quote>, current: Option<Quote>, i: nat, j: nat): Option<Quote>
    requires DrawsInRange(qs, current, i, j)
  {
    var drawn := Pick(qs, i);
    if drawn.Some? && current.Some? && drawn.value.id == current.value.id then
      if |qs| > 1 then Pick(WithoutId(qs, current.value.id), j) else drawn
    else drawn
  }

  /** Whatever handleNewQuote displays comes from the collection; it displays nothing only when the collection is empty or every quote has the current id. */
  lemma NextDisplayMember(qs: seq<Quote>, current: Option<Quote>, i: nat, j: nat)
    requires DrawsInRange(qs, current, i, j)
    ensures var r := NextDisplay(qs, current, i, j);
      && (r.Some? ==> r.value in qs)
      && (r.None? <==> qs == [] || (|qs| > 1 && current.Some? && qs[i].id == current.value.id && WithoutId(qs, current.value.id) == []))
  {
  }

  /** No collision: when the draw's id differs from the displayed one, or nothing is displayed, the draw is shown. */
  lemma NewQuoteNoCollision(qs: seq<Quote>, current: Option<Quote>, i: nat, j: nat)
    requires DrawsInRange(qs, current, i, j) && qs != []
    requires current.None? || qs[i].id != current.value.id
    ensures NextDisplay(qs, current, i, j) == Some(qs[i])
  {
  }

  /** Collision with several quotes of unique ids: the second draw from the others is shown, and it is a different quote. */
  lemma NewQuoteCollision(qs: seq<Quote>, current: Option<Quote>, i: nat, j: nat)
    requires DrawsInRange(qs, current, i, j) && |qs| > 1 && UniqueIds(qs)
    requires current.Some? && qs[i].id == current.value.id
    ensures var others := WithoutId(qs, current.value.id);
      && others != [] && j < |others|
      && NextDisplay(qs, current, i, j) == Some(others[j])
      && others[j] in qs && others[j].id != current.value.id
  {
    var id := current.value.id;
    var k := if i == 0 then 1 else 0;
    assert qs[k].id != id;
    assert qs[k] in WithoutId(qs, id);
    var others := WithoutId(qs, id);
    assert others[j] in others;
  }

  /** Collision with a single quote: it is shown again. */
  lemma NewQuoteSingle(qs: seq<Quote>, current: Option<Quote>, i: nat, j: nat)
    requires DrawsInRange(qs, current, i, j) && |qs| == 1
    requires current.Some? && qs[0].id == current.value.id
    ensures NextDisplay(qs, current, i, j) == Some(qs[0])
  {
  }

  /** An empty collection displays nothing. */
  lemma NewQuoteEmpty(current: Option<Quote>, i: nat, j: nat)
    requires DrawsInRange([], current, i, j)
    ensures NextDisplay([], current, i, j) == None
  {
  }

  /** With unique ids and more than one quote, handleNewQuote always shows a quote of the collection whose id differs from the displayed one. */
  lemma NewQuoteVaries(qs: seq<Quote>, current: Option<Quote>, i: nat, j: nat)
    requires DrawsInRange(qs, current, i, j) && |qs| > 1 && UniqueIds(qs) && current.Some?
    ensures var r := NextDisplay(qs, current, i, j);
      r.Some? && r.value in qs && r.value.id != current.value.id
  {
    if qs[i].id == current.value.id {
      NewQuoteCollision(qs, current, i, j);
    }
  }

  /** With unique ids, handleNewQuote shows nothing exactly when the collection is empty. */
  lemma NewQuoteNoneIffEmpty(qs: seq<Quote>, current: Option<Quote>, i: nat, j: nat)
    requires DrawsInRange(qs, current, i, j) && UniqueIds(qs)
    ensures NextDisplay(qs, current, i, j).None? <==> qs == []
  {
    if |qs| > 1 && current.Some? && qs[i].id == current.value.id {
      NewQuoteCollision(qs, current, i, j);
    }
  }

  /** Two quotes A and B with different ids, A displayed: "new quote" shows B whatever the draws. */
  lemma TwoQuotesAlternate(a: Quote, b: Quote, i: nat, j: nat)
    requires a.id != b.id && DrawsInRange([a, b], Some(a), i, j)
    ensures NextDisplay([a, b], Some(a), i, j) == Some(b)
  {
    assert WithoutId([b], a.id) == [b];
    assert WithoutId([a, b], a.id) == WithoutId([b], a.id) by {
      assert [a, b][1..] == [b];
    }
  }

  /** After a quote is deleted from a working store, the quote handleNewQuote shows never has the deleted id. */
  lemma DeleteHidesQuote(st: StoreState, id: string, current: Option<Quote>, i: nat, j: nat)
    requires HasId(Visible(st), id)
    requires DrawsInRange(Visible(StateAfterDelete(st, true, id)), current, i, j)
    ensures var r := NextDisplay(Visible(StateAfterDelete(st, true, id)), current, i, j);
      && (r.Some? ==> r.value in Visible(st) && r.value.id != id)
      && (UniqueIds(Visible(st)) ==> (r.None? <==> |Visible(st)| == 1))
  {
    var after := Visible(StateAfterDelete(st, true, id));
    DeleteShrinks(st, id);
    NextDisplayMember(after, current, i, j);
    if UniqueIds(Visible(st)) {
      WithoutIdUnique(Visible(st), id);
      NewQuoteNoneIffEmpty(after, current, i, j);
    }
  }

  /** What the page shows: a spinner while no quote is set, otherwise the form or the quote card. */
  datatype Mode = Loading | Viewing | Composing

  /** The page's state: the displayed quote and whether the creation form is open. */
  class QuotePage {
    var currentQuote: Option<Quote>
    var showForm: bool
    /** The quote store the page reads and writes. */
    const store: QuoteStore

    /** The initial render: nothing displayed, form closed. */
    constructor (store: QuoteStore)
      ensures currentQuote == None && !showForm && this.store == store
      ensures Mode() == Loading
    {
      currentQuote := None;
      showForm := false;
      this.store := store;
    }

    /** What the page renders. */
    function Mode(): Mode
      reads this
    {
      if currentQuote.None? then Loading else if showForm then Composing else Viewing
    }

    /** The mount effect: display a random quote. */
    method Mount(i: nat)
      requires Visible(store.state) != [] ==> i < |Visible(store.state)|
      modifies this, store
      ensures currentQuote == Pick(Visible(old(store.state)), i)
      ensures showForm == old(showForm)
      ensures store.state == AfterRead(old(store.state), store.writable)
    {
      currentQuote := store.GetRandom(i);
    }

    /** handleNewQuote: draw a quote, re-drawing among the others when the draw repeats the displayed one. */
    method NewQuote(i: nat, j: nat)
      requires DrawsInRange(Visible(store.state), currentQuote, i, j)
      modifies this, store
      ensures currentQuote == NextDisplay(Visible(old(store.state)), old(currentQuote), i, j)
      ensures showForm == old(showForm)
      ensures store.state == AfterRead(old(store.state), store.writable)
    {
      ghost var qs := Visible(store.state);
      var newQuote := store.GetRandom(i);
      if newQuote.Some? && currentQuote.Some? && newQuote.value.id == currentQuote.value.id {
        var quotes := store.GetAll();
        ReadIsStable(old(store.state), store.writable);
        assert quotes == qs;
        if |quotes| > 1 {
          var filtered := WithoutId(quotes, currentQuote.value.id);
          currentQuote := Pick(filtered, j);
        } else {
          currentQuote := newQuote;
        }
      } else {
        currentQuote := newQuote;
      }
    }

    /** handleAddQuote: store the form's data, display the new quote, close the form. */
    method AddQuote(data: QuoteFormData, id: string, now: int)
      modifies this, store
      ensures currentQuote == Some(WithIdAndTime(data, id, now))
      ensures !showForm
      ensures store.state == StateAfterAdd(old(store.state), store.writable, WithIdAndTime(data, id, now))
      ensures Mode() == Viewing
    {
      var q := store.Add(data, id, now);
      assert q == WithIdAndTime(data, id, now);
      currentQuote := Some(q);
      showForm := false;
    }

    /** handleDeleteQuote: delete from the store and, if something was removed, show another quote. */
    method DeleteQuote(id: string, i: nat, j: nat)
      requires DrawsInRange(Visible(StateAfterDelete(store.state, store.writable, id)), currentQuote, i, j)
      modifies this, store
      ensures !HasId(Visible(old(store.state)), id) ==>
        currentQuote == old(currentQuote) && store.state == AfterRead(old(store.state), store.writable)
      ensures HasId(Visible(old(store.state)), id) ==>
        currentQuote == NextDisplay(Visible(StateAfterDelete(old(store.state), store.writable, id)), old(currentQuote), i, j)
      ensures store.state == AfterRead(StateAfterDelete(old(store.state), store.writable, id), store.writable)
      ensures showForm == old(showForm)
      ensures store.writable && HasId(Visible(old(store.state)), id) ==>
        currentQuote.None? || currentQuote.value.id != id
    {
      ghost var before := store.state;
      var removed := store.Delete(id);
      if removed {
        NewQuote(i, j);
        if store.writable {
          DeleteHidesQuote(before, id, old(currentQuote), i, j);
        }
      }
    }

    /** The "add your quote" button: open the form. */
    method OpenForm()
      modifies this
      ensures showForm && currentQuote == old(currentQuote) && unchanged(store)
    {
      showForm := true;
    }

    /** The form's cancel button: close it. */
    method CancelForm()
      modifies this
      ensures !showForm && currentQuote == old(currentQuote) && unchanged(store)
    {
      showForm := false;
    }
  }
}
