/** The quote record and the data a user supplies to create one (src/types/quote.ts). */
module Quotes {

  /** An optional value: an absent optional property, or a `null` result. */
  datatype Option<+T> = None | Some(value: T)

  /** A stored quote. `source` and `tags` are optional properties. */
  datatype Quote = Quote(
    id: string,
    text: string,
    author: string,
    source: Option<string>,
    addedAt: int,
    tags: Option<seq<string>>)

  /** A quote without its `id` and `addedAt`: what the creation form produces. */
  datatype QuoteFormData = QuoteFormData(
    text: string,
    author: string,
    source: Option<string>,
    tags: Option<seq<string>>)

  /** The form data of a quote: the quote with `id` and `addedAt` omitted. */
  function FormDataOf(q: Quote): QuoteFormData {
    QuoteFormData(q.text, q.author, q.source, q.tags)
  }

  /** `{ ...data, id, addedAt }`: the quote that carries the given data, id and timestamp. */
  function WithIdAndTime(d: QuoteFormData, id: string, addedAt: int): (q: Quote)
    ensures FormDataOf(q) == d
    ensures q.id == id && q.addedAt == addedAt
  {
    Quote(id, d.text, d.author, d.source, addedAt, d.tags)
  }

  /** Some quote in the collection has this id. */
  predicate HasId(qs: seq<Quote>, id: string) {
    exists k :: 0 <= k < |qs| && qs[k].id == id
  }

  /** No two positions of the collection hold quotes with the same id. */
  predicate UniqueIds(qs: seq<Quote>) {
    forall i, j :: 0 <= i < j < |qs| ==> qs[i].id != qs[j].id
  }

  /** A collection has unique ids exactly when its tail does and its head's id does not recur. */
  lemma UniqueIdsCons(q: Quote, qs: seq<Quote>)
    ensures UniqueIds([q] + qs) <==> UniqueIds(qs) && !HasId(qs, q.id)
  {
    var s := [q] + qs;
    if UniqueIds(s) {
      forall i, j | 0 <= i < j < |qs| ensures qs[i].id != qs[j].id {
        assert s[i + 1] == qs[i] && s[j + 1] == qs[j];
      }
      forall k | 0 <= k < |qs| ensures qs[k].id != q.id {
        assert s[0] == q && s[k + 1] == qs[k];
      }
    }
    if UniqueIds(qs) && !HasId(qs, q.id) {
      forall i, j | 0 <= i < j < |s| ensures s[i].id != s[j].id {
        assert s[j] == qs[j - 1];
        if i > 0 {
          assert s[i] == qs[i - 1];
        }
      }
    }
  }

  /** Appending a quote whose id is fresh keeps the ids unique. */
  lemma UniqueIdsSnoc(qs: seq<Quote>, q: Quote)
    requires UniqueIds(qs) && !HasId(qs, q.id)
    ensures UniqueIds(qs + [q])
  {
    var s := qs + [q];
    forall i, j | 0 <= i < j < |s| ensures s[i].id != s[j].id {
      assert s[i] == qs[i];
      if j < |qs| {
        assert s[j] == qs[j];
      } else {
        assert s[j] == q;
      }
    }
  }
}
