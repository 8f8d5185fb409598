/**
 * The quote store (src/utils/quoteStorage.ts): the whole collection kept as
 * one value under one key of the browser's local storage. The key's content
 * is Absent, a parsed collection, or Corrupt (reading or parsing it throws).
 */
module Storage {
  import opened Quotes
  import opened JsString

  /** The seven quotes a first run seeds the store with. */
  const DefaultQuotes: seq<Quote> := [
    Quote("1",
      "Две вещи наполняют душу всегда новым и все более сильным удивлением и благоговением, чем чаще и продолжительнее мы размышляем о них, — это звездное небо надо мной и моральный закон во мне.",
      "Иммануил Кант", Some("Критика практического разума"), 1620000000000, Some(["философия", "этика"])),
    Quote("2",
      "Тот, кто хочет видеть результаты своего труда немедленно, должен идти в сапожники.",
      "Альберт Эйнштейн", None, 1620100000000, Some(["наука", "труд"])),
    Quote("3",
      "Если вы хотите вести счастливую жизнь, вы должны быть привязаны к цели, а не к людям или вещам.",
      "Альберт Эйнштейн", None, 1620200000000, Some(["счастье", "цель"])),
    Quote("4",
      "Жизнь — это то, что с тобой происходит, пока ты строишь другие планы.",
      "Джон Леннон", None, 1620300000000, Some(["жизнь", "планы"])),
    Quote("5",
      "Счастье — это не нечто готовое. Счастье зависит от ваших действий.",
      "Далай-лама XIV", None, 1620400000000, Some(["счастье", "действие"])),
    Quote("6",
      "Программирование — это не о том, что вы знаете; это о том, что вы можете выяснить.",
      "Крис Пайн", None, 1620500000000, Some(["программирование", "знания"])),
    Quote("7",
      "Лучшее время, чтобы посадить дерево, было 20 лет назад. Второе лучшее время — сейчас.",
      "Китайская пословица", None, 1620600000000, Some(["время", "действие"]))
  ]

  /** The defaults are seven quotes with ids "1" to "7", all distinct, each with text and author. */
  lemma DefaultQuotesShape()
    ensures |DefaultQuotes| == 7
    ensures forall k :: 0 <= k < 7 ==> DefaultQuotes[k].id == ["1234567"[k]]
    ensures UniqueIds(DefaultQuotes)
    ensures forall q :: q in DefaultQuotes ==> q.text != "" && q.author != ""
  {
    var ids := "1234567";
    forall i, j | 0 <= i < j < 7 ensures DefaultQuotes[i].id != DefaultQuotes[j].id {
      assert DefaultQuotes[i].id == [ids[i]] && DefaultQuotes[j].id == [ids[j]];
    }
  }

  /** What the storage key holds. */
  datatype StoreState = Absent | Stored(quotes: seq<Quote>) | Corrupt

  /** What getAll returns for a store in state `st`: the stored collection, or the defaults. */
  function Visible(st: StoreState): seq<Quote> {
    if st.Stored? then st.quotes else DefaultQuotes
  }

  /** The store after getAll: an absent key is seeded with the defaults when the write succeeds. */
  function AfterRead(st: StoreState, writable: bool): StoreState {
    if st.Absent? && writable then Stored(DefaultQuotes) else st
  }

  /** The store after saveAll(qs): overwritten when the write succeeds, untouched otherwise. */
  function AfterWrite(st: StoreState, writable: bool, qs: seq<Quote>): StoreState {
    if writable then Stored(qs) else st
  }

  /** getAll on an absent store seeds the defaults; on a corrupt one it returns them and leaves the store as it was. */
  lemma ReadFallbacks(writable: bool)
    ensures Visible(Absent) == DefaultQuotes
    ensures AfterRead(Absent, writable) == if writable then Stored(DefaultQuotes) else Absent
    ensures Visible(Corrupt) == DefaultQuotes && AfterRead(Corrupt, writable) == Corrupt
  {
  }

  /** A read changes nothing that a second read would see, and a second read changes nothing at all. */
  lemma ReadIsStable(st: StoreState, writable: bool)
    ensures Visible(AfterRead(st, writable)) == Visible(st)
    ensures AfterRead(AfterRead(st, writable), writable) == AfterRead(st, writable)
  {
  }

  /** saveAll(qs) followed by getAll returns qs, and that read leaves the store as saveAll left it. */
  lemma SaveAllRoundTrip(st: StoreState, qs: seq<Quote>)
    ensures Visible(AfterWrite(st, true, qs)) == qs
    ensures AfterRead(AfterWrite(st, true, qs), true) == Stored(qs)
  {
  }

  /** `qs.filter(q => q.id !== id)`. */
  function WithoutId(qs: seq<Quote>, id: string): (r: seq<Quote>)
    ensures |r| <= |qs|
    ensures forall q :: q in r <==> q in qs && q.id != id
    ensures |r| < |qs| <==> HasId(qs, id)
  {
    if qs == [] then []
    else
      var rest := WithoutId(qs[1..], id);
      assert HasId(qs, id) <==> qs[0].id == id || HasId(qs[1..], id) by {
        if HasId(qs[1..], id) {
          var k :| 0 <= k < |qs[1..]| && qs[1..][k].id == id;
          assert qs[k + 1].id == id;
        }
        if HasId(qs, id) && qs[0].id != id {
          var k :| 0 <= k < |qs| && qs[k].id == id;
          assert qs[1..][k - 1].id == id;
        }
      }
      assert qs == [qs[0]] + qs[1..];
      if qs[0].id == id then rest else [qs[0]] + rest
  }

  /** Filtering distributes over concatenation: the kept quotes stay in their original order. */
  lemma {:induction false} WithoutIdAppend(a: seq<Quote>, b: seq<Quote>, id: string)
    ensures WithoutId(a + b, id) == WithoutId(a, id) + WithoutId(b, id)
  {
    if a == [] {
      assert a + b == b;
    } else {
      assert (a + b)[1..] == a[1..] + b;
      WithoutIdAppend(a[1..], b, id);
    }
  }

  /** Filtering an id that no quote has returns the collection itself. */
  lemma {:induction false} WithoutIdMissing(qs: seq<Quote>, id: string)
    requires !HasId(qs, id)
    ensures WithoutId(qs, id) == qs
  {
    var r := WithoutId(qs, id);
    assert |r| == |qs|;
    if qs != [] {
      assert qs[0].id != id;
      WithoutIdMissing(qs[1..], id);
    }
  }

  /** Filtering keeps the ids unique; with unique ids, removing a present id removes exactly one quote. */
  lemma {:induction false} WithoutIdUnique(qs: seq<Quote>, id: string)
    requires UniqueIds(qs)
    ensures UniqueIds(WithoutId(qs, id))
    ensures HasId(qs, id) ==> |WithoutId(qs, id)| == |qs| - 1
  {
    if qs != [] {
      assert qs == [qs[0]] + qs[1..];
      UniqueIdsCons(qs[0], qs[1..]);
      WithoutIdUnique(qs[1..], id);
      var rest := WithoutId(qs[1..], id);
      if qs[0].id == id {
        WithoutIdMissing(qs[1..], id);
      } else {
        forall k | 0 <= k < |rest| ensures rest[k].id != qs[0].id {
          assert rest[k] in qs[1..];
        }
        UniqueIdsCons(qs[0], rest);
      }
    }
  }

  /** getRandom's choice: `null` on an empty collection, otherwise the quote at the drawn index. */
  function Pick(qs: seq<Quote>, i: nat): (r: Option<Quote>)
    requires qs != [] ==> i < |qs|
    ensures r.None? <==> qs == []
    ensures r.Some? ==> r.value == qs[i] && r.value in qs
  {
    if |qs| == 0 then None else Some(qs[i])
  }

  /** The store after add: the read and the write of the grown collection. */
  function StateAfterAdd(st: StoreState, writable: bool, q: Quote): StoreState {
    AfterWrite(AfterRead(st, writable), writable, Visible(st) + [q])
  }

  /** The store after delete(id): rewritten only when some quote had that id. */
  function StateAfterDelete(st: StoreState, writable: bool, id: string): StoreState {
    if HasId(Visible(st), id) then AfterWrite(AfterRead(st, writable), writable, WithoutId(Visible(st), id))
    else AfterRead(st, writable)
  }

  /** Every quote of the collection has a non-empty text and a non-empty author. */
  predicate HasContent(qs: seq<Quote>) {
    forall q :: q in qs ==> q.text != "" && q.author != ""
  }

  /** Adding a quote built from data whose text and author do not trim to nothing keeps every visible quote with content. */
  lemma AddKeepsContent(st: StoreState, writable: bool, d: QuoteFormData, id: string, now: int)
    requires HasContent(Visible(st))
    requires Trim(d.text) != "" && Trim(d.author) != ""
    ensures HasContent(Visible(StateAfterAdd(st, writable, WithIdAndTime(d, id, now))))
  {
    var q := WithIdAndTime(d, id, now);
    assert q.text != "" && q.author != "";
    assert Visible(AfterRead(st, writable)) == Visible(st);
  }

  /** Deleting keeps every visible quote with content. */
  lemma DeleteKeepsContent(st: StoreState, writable: bool, id: string)
    requires HasContent(Visible(st))
    ensures HasContent(Visible(StateAfterDelete(st, writable, id)))
  {
    assert Visible(AfterRead(st, writable)) == Visible(st);
  }

  /** With a working store, add grows the collection by the new quote at the end and keeps the ids unique when the new id is fresh. */
  lemma AddGrows(st: StoreState, q: Quote)
    ensures var after := Visible(StateAfterAdd(st, true, q));
      && |after| == |Visible(st)| + 1
      && after[..|Visible(st)|] == Visible(st)
      && after[|Visible(st)|] == q
    ensures UniqueIds(Visible(st)) && !HasId(Visible(st), q.id) ==> UniqueIds(Visible(StateAfterAdd(st, true, q)))
  {
    var after := Visible(StateAfterAdd(st, true, q));
    assert after == Visible(st) + [q];
    if UniqueIds(Visible(st)) && !HasId(Visible(st), q.id) {
      UniqueIdsSnoc(Visible(st), q);
    }
  }

  /** With a working store, delete leaves no quote with that id and the others in order; with unique ids it removes exactly one. */
  lemma DeleteShrinks(st: StoreState, id: string)
    ensures var after := Visible(StateAfterDelete(st, true, id));
      && !HasId(after, id)
      && (forall q :: q in after <==> q in Visible(st) && q.id != id)
      && (HasId(Visible(st), id) ==> after == WithoutId(Visible(st), id))
      && (!HasId(Visible(st), id) ==> after == Visible(st))
    ensures UniqueIds(Visible(st)) && HasId(Visible(st), id) ==>
      |Visible(StateAfterDelete(st, true, id))| == |Visible(st)| - 1
  {
    var after := Visible(StateAfterDelete(st, true, id));
    if HasId(Visible(st), id) {
      assert after == WithoutId(Visible(st), id);
      forall k | 0 <= k < |after| ensures after[k].id != id {
        assert after[k] in after;
      }
      if UniqueIds(Visible(st)) {
        WithoutIdUnique(Visible(st), id);
      }
    } else {
      assert after == Visible(st);
    }
  }

  /** The browser's storage key for the collection, with the condition under which its writes succeed. */
  class QuoteStore {
    /** The content of the storage key. */
    var state: StoreState
    /** Whether localStorage.setItem succeeds (false: quota exceeded or storage disabled). */
    const writable: bool

    constructor (initial: StoreState, writable: bool)
      ensures state == initial && this.writable == writable
    {
      state := initial;
      this.writable := writable;
    }

    /** getAll: the stored collection, or the defaults (seeding them when the key is absent). */
    method GetAll() returns (qs: seq<Quote>)
      modifies this
      ensures qs == Visible(old(state))
      ensures state == AfterRead(old(state), writable)
    {
      match state {
        case Absent =>
          SaveAll(DefaultQuotes);
          qs := DefaultQuotes;
        case Stored(stored) =>
          qs := stored;
        case Corrupt =>
          qs := DefaultQuotes;
      }
    }

    /** saveAll: overwrite the key; a failing write is swallowed. */
    method SaveAll(qs: seq<Quote>)
      modifies this
      ensures state == AfterWrite(old(state), writable, qs)
    {
      if writable {
        state := Stored(qs);
      }
    }

    /** add: append a quote built from `data` with the injected id and timestamp, write back, return it. */
    method Add(data: QuoteFormData, id: string, now: int) returns (q: Quote)
      modifies this
      ensures FormDataOf(q) == data && q.id == id && q.addedAt == now
      ensures state == StateAfterAdd(old(state), writable, q)
    {
      var quotes := GetAll();
      q := WithIdAndTime(data, id, now);
      quotes := quotes + [q];
      SaveAll(quotes);
    }

    /** delete: filter out the id; write back and report true only when something was removed. */
    method Delete(id: string) returns (removed: bool)
      modifies this
      ensures removed == HasId(Visible(old(state)), id)
      ensures state == StateAfterDelete(old(state), writable, id)
      ensures !removed ==> state == AfterRead(old(state), writable)
    {
      var quotes := GetAll();
      var filtered := WithoutId(quotes, id);
      if |filtered| < |quotes| {
        SaveAll(filtered);
        removed := true;
      } else {
        removed := false;
      }
    }

    /** getRandom: `null` on an empty collection, otherwise the quote at the injected index. */
    method GetRandom(i: nat) returns (r: Option<Quote>)
      requires Visible(state) != [] ==> i < |Visible(state)|
      modifies this
      ensures r == Pick(Visible(old(state)), i)
      ensures r.Some? ==> r.value in Visible(old(state))
      ensures state == AfterRead(old(state), writable)
    {
      var quotes := GetAll();
      r := Pick(quotes, i);
    }

    /** clear: drop the key. */
    method Clear()
      modifies this
      ensures state == Absent
    {
      state := Absent;
    }
  }

  /** After clear, the next getAll returns exactly the seven defaults, even after an add. */
  method ReseedAfterAdd(s: QuoteStore, data: QuoteFormData, id: string, now: int) returns (qs: seq<Quote>)
    modifies s
    ensures qs == DefaultQuotes && |qs| == 7
    ensures s.state == if s.writable then Stored(DefaultQuotes) else Absent
  {
    var _ := s.Add(data, id, now);
    s.Clear();
    qs := s.GetAll();
    DefaultQuotesShape();
  }

  /**
   * The module as written shares one array object: getAll returns the
   * DEFAULT_QUOTES array itself whenever the key is absent or unreadable,
   * and add pushes onto the array getAll returned. `defaults` is the current
   * content of that array.
   */
  datatype Backing = Backing(stored: StoreState, defaults: seq<Quote>)

  /** getAll as written: the result, and whether it is the DEFAULT_QUOTES array itself. */
  function ReadAsWritten(b: Backing): (seq<Quote>, bool) {
    if b.stored.Stored? then (b.stored.quotes, false) else (b.defaults, true)
  }

  /** add as written: seeding, the push onto the array getAll returned, and the write back. */
  function AddAsWritten(b: Backing, writable: bool, data: QuoteFormData, id: string, now: int): Backing {
    var q := WithIdAndTime(data, id, now);
    var (quotes, shared) := ReadAsWritten(b);
    var seeded := if b.stored.Absent? && writable then Stored(b.defaults) else b.stored;
    var defaults := if shared then quotes + [q] else b.defaults;
    Backing(if writable then Stored(quotes + [q]) else seeded, defaults)
  }

  /** add as intended: the same reads and writes, but the quote is appended to a copy, so the in-memory defaults stay as they were. */
  function AddCopying(b: Backing, writable: bool, data: QuoteFormData, id: string, now: int): Backing {
    var q := WithIdAndTime(data, id, now);
    var (quotes, _) := ReadAsWritten(b);
    var seeded := if b.stored.Absent? && writable then Stored(b.defaults) else b.stored;
    Backing(if writable then Stored(quotes + [q]) else seeded, b.defaults)
  }

  /** clear as written: removes the key; the in-memory array is left as it is. */
  function ClearAsWritten(b: Backing): Backing {
    b.(stored := Absent)
  }

  /** delete as written: filters the collection getAll returned (a new array) and writes it back when it is shorter. */
  function DeleteAsWritten(b: Backing, writable: bool, id: string): (Backing, bool) {
    var (quotes, _) := ReadAsWritten(b);
    var seeded := if b.stored.Absent? && writable then Stored(b.defaults) else b.stored;
    var filtered := WithoutId(quotes, id);
    if |filtered| < |quotes| then (Backing(if writable then Stored(filtered) else seeded, b.defaults), true)
    else (Backing(seeded, b.defaults), false)
  }

  /**
   * As written, on a store whose writes fail, an added quote lives only in
   * the shared defaults array: the key stays absent, yet every later getAll
   * returns the quote, and deleting it reports success while the quote
   * stays. With value semantics the same add leaves getAll at the defaults.
   */
  lemma UnwritableAddSurvivesDelete(data: QuoteFormData, id: string, now: int)
    ensures var q := WithIdAndTime(data, id, now);
      var b := AddAsWritten(Backing(Absent, DefaultQuotes), false, data, id, now);
      && b.stored == Absent
      && ReadAsWritten(b) == (DefaultQuotes + [q], true)
      && DeleteAsWritten(b, false, id).1
      && ReadAsWritten(DeleteAsWritten(b, false, id).0).0 == DefaultQuotes + [q]
      && Visible(StateAfterAdd(Absent, false, q)) == DefaultQuotes
  {
    var q := WithIdAndTime(data, id, now);
    var qs := DefaultQuotes + [q];
    DefaultQuotesShape();
    assert qs[7] == q;
    assert HasId(qs, id);
  }

  /** As written, an add on a fresh store, then clear, then getAll, yields eight quotes, the added one last. */
  lemma AddAsWrittenPollutesDefaults(data: QuoteFormData, id: string, now: int)
    ensures var b := ClearAsWritten(AddAsWritten(Backing(Absent, DefaultQuotes), true, data, id, now));
      && |ReadAsWritten(b).0| == 8
      && ReadAsWritten(b).0 == DefaultQuotes + [WithIdAndTime(data, id, now)]
  {
    DefaultQuotesShape();
  }

  /**
   * The copying add keeps the defaults fixed, writes what the store model's
   * StateAfterAdd describes, and a clear followed by getAll yields the seven
   * defaults again.
   */
  lemma AddCopyingKeepsDefaults(stored: StoreState, writable: bool, data: QuoteFormData, id: string, now: int)
    ensures var b := AddCopying(Backing(stored, DefaultQuotes), writable, data, id, now);
      && b.defaults == DefaultQuotes
      && b.stored == StateAfterAdd(stored, writable, WithIdAndTime(data, id, now))
      && ReadAsWritten(ClearAsWritten(b)) == (DefaultQuotes, true)
      && |ReadAsWritten(ClearAsWritten(b)).0| == 7
  {
    DefaultQuotesShape();
  }
}
