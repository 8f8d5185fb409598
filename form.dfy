/**
 * The quote creation form (src/components/QuoteForm.tsx): the draft,
 * the tag being typed, the per-field error messages, tag editing and the
 * validation that guards submission.
 */
module Form {
  import opened Quotes
  import opened JsString

  /** The keys of the error record: the fields of the form data. */
  datatype Field = Text | Author | Source | Tags

  /** The named inputs whose change events reach handleChange (the tag input has no name). */
  datatype InputName = TextInput | AuthorInput | SourceInput

  /** The form data field an input edits. */
  function FieldOf(name: InputName): Field {
    match name
    case TextInput => Text
    case AuthorInput => Author
    case SourceInput => Source
  }

  /** The message shown when the quote text is missing. */
  const TextRequired: string := "Текст цитаты обязателен"
  /** The message shown when the author is missing. */
  const AuthorRequired: string := "Автор цитаты обязателен"

  /** The message handleSubmit records for a field that fails validation. */
  function RequiredMessage(f: Field): string {
    if f == Text then TextRequired else AuthorRequired
  }

  /** The error record holds a message for this field (`errors[name]` is truthy). */
  predicate HasError(errors: map<Field, string>, f: Field) {
    f in errors && errors[f] != ""
  }

  /** `tagInput.trim().toLowerCase()`: the text of a new tag. */
  function NormalizeTag(s: string): (t: string)
    ensures t == "" <==> IsBlank(s)
    ensures Trim(t) == t && ToLower(t) == t
  {
    var trimmed := Trim(s);
    TrimEmptyIffBlank(s);
    TrimIdempotent(s);
    ToLowerKeepsTrimmed(trimmed);
    ToLowerIdempotent(trimmed);
    ToLower(trimmed)
  }

  /** Normalizing a normalized tag changes nothing. */
  lemma NormalizeTagIdempotent(s: string)
    ensures NormalizeTag(NormalizeTag(s)) == NormalizeTag(s)
  {
  }

  /** A tag the form can hold: non-empty, trimmed and lower-case. */
  predicate IsNormalTag(t: string) {
    t != "" && Trim(t) == t && ToLower(t) == t
  }

  /** No tag occurs twice. */
  predicate NoDuplicates(ts: seq<string>) {
    forall i, j :: 0 <= i < j < |ts| ==> ts[i] != ts[j]
  }

  /** The invariant of the tag list: every tag is normal and none repeats. */
  predicate TagsValid(tags: Option<seq<string>>) {
    tags.Some? ==> NoDuplicates(tags.value) && forall t :: t in tags.value ==> IsNormalTag(t)
  }

  /** `formData.tags?.includes(t)`: false when there is no tag list. */
  predicate HasTag(tags: Option<seq<string>>, t: string) {
    tags.Some? && t in tags.value
  }

  /** `[...(tags || []), t]`. */
  function AppendTag(tags: Option<seq<string>>, t: string): (r: Option<seq<string>>)
    ensures r.Some? && |r.value| >= 1 && r.value[|r.value| - 1] == t
    ensures r.value[..|r.value| - 1] == if tags.Some? then tags.value else []
  {
    var old_tags := if tags.Some? then tags.value else [];
    assert (old_tags + [t])[..|old_tags|] == old_tags;
    Some(old_tags + [t])
  }

  /** `ts.filter(tag => tag !== t)`. */
  function RemoveAll(ts: seq<string>, t: string): (r: seq<string>)
    ensures |r| <= |ts|
    ensures forall x :: x in r <==> x in ts && x != t
  {
    if ts == [] then []
    else
      assert ts == [ts[0]] + ts[1..];
      if ts[0] == t then RemoveAll(ts[1..], t) else [ts[0]] + RemoveAll(ts[1..], t)
  }

  /** Filtering distributes over concatenation: the remaining tags keep their order. */
  lemma {:induction false} RemoveAllAppend(a: seq<string>, b: seq<string>, t: string)
    ensures RemoveAll(a + b, t) == RemoveAll(a, t) + RemoveAll(b, t)
  {
    if a == [] {
      assert a + b == b;
    } else {
      assert (a + b)[1..] == a[1..] + b;
      RemoveAllAppend(a[1..], b, t);
    }
  }

  /** Removing a tag that is not there returns the list itself. */
  lemma {:induction false} RemoveAllMissing(ts: seq<string>, t: string)
    requires t !in ts
    ensures RemoveAll(ts, t) == ts
  {
    if ts != [] {
      assert ts == [ts[0]] + ts[1..];
      RemoveAllMissing(ts[1..], t);
    }
  }

  /** Filtering keeps a duplicate-free list duplicate-free. */
  lemma {:induction false} RemoveAllNoDuplicates(ts: seq<string>, t: string)
    requires NoDuplicates(ts)
    ensures NoDuplicates(RemoveAll(ts, t))
  {
    if ts != [] {
      var tail := ts[1..];
      assert NoDuplicates(tail) by {
        forall i, j | 0 <= i < j < |tail| ensures tail[i] != tail[j] {
          assert tail[i] == ts[i + 1] && tail[j] == ts[j + 1];
        }
      }
      RemoveAllNoDuplicates(tail, t);
      var rest := RemoveAll(tail, t);
      if ts[0] != t {
        assert ts[0] !in tail by {
          forall k | 0 <= k < |tail| ensures tail[k] != ts[0] {
            assert tail[k] == ts[k + 1];
          }
        }
        var r := [ts[0]] + rest;
        forall i, j | 0 <= i < j < |r| ensures r[i] != r[j] {
          assert r[j] == rest[j - 1];
          assert r[j] in tail;
          if i > 0 {
            assert r[i] == rest[i - 1];
          }
        }
      }
    }
  }

  /** `tags?.filter(tag => tag !== t)`: no tag list stays no tag list. */
  function RemoveTagFrom(tags: Option<seq<string>>, t: string): (r: Option<seq<string>>)
    ensures r.Some? <==> tags.Some?
    ensures r.Some? ==> !HasTag(r, t) && forall x :: x in r.value <==> x in tags.value && x != t
  {
    if tags.Some? then Some(RemoveAll(tags.value, t)) else None
  }

  /** When the normalized tag is new, appending it keeps the tag list valid. */
  lemma AppendTagValid(tags: Option<seq<string>>, s: string)
    requires TagsValid(tags) && !IsBlank(s) && !HasTag(tags, NormalizeTag(s))
    ensures TagsValid(AppendTag(tags, NormalizeTag(s)))
  {
    var t := NormalizeTag(s);
    assert IsNormalTag(t);
    var ts := AppendTag(tags, t).value;
    var old_tags := if tags.Some? then tags.value else [];
    assert ts == old_tags + [t];
    forall x | x in ts ensures IsNormalTag(x) {
      if x != t {
        assert x in old_tags;
      }
    }
    forall i, j | 0 <= i < j < |ts| ensures ts[i] != ts[j] {
      assert ts[i] == old_tags[i];
      if j < |old_tags| {
        assert ts[j] == old_tags[j];
      } else {
        assert old_tags[i] in old_tags;
      }
    }
  }

  /** Removing a tag keeps the tag list valid. */
  lemma RemoveTagValid(tags: Option<seq<string>>, t: string)
    requires TagsValid(tags)
    ensures TagsValid(RemoveTagFrom(tags, t))
  {
    if tags.Some? {
      RemoveAllNoDuplicates(tags.value, t);
    }
  }

  /** Inputs that differ only in letter case normalize to the same tag. */
  lemma NormalizeTagIgnoresCase(a: string, b: string)
    requires ToLower(a) == ToLower(b)
    ensures NormalizeTag(a) == NormalizeTag(b)
  {
    TrimLower(a);
    TrimLower(b);
  }

  /** Whitespace typed around a tag does not change the tag. */
  lemma NormalizeTagIgnoresSpace(w1: string, s: string, w2: string)
    requires IsBlank(w1) && IsBlank(w2)
    ensures NormalizeTag(w1 + s + w2) == NormalizeTag(s)
  {
    TrimSurrounded(w1, s, w2);
  }

  /**
   * The duplicate check ignores case and surrounding whitespace: an input
   * that is a stored tag up to letter case, padded with whitespace,
   * normalizes to that stored tag.
   */
  lemma CaseInsensitiveDuplicate(tags: Option<seq<string>>, t: string, w1: string, u: string, w2: string)
    requires HasTag(tags, t) && IsNormalTag(t)
    requires IsBlank(w1) && IsBlank(w2) && ToLower(u) == ToLower(t)
    ensures NormalizeTag(w1 + u + w2) == t
    ensures HasTag(tags, NormalizeTag(w1 + u + w2))
  {
    NormalizeTagIgnoresSpace(w1, u, w2);
    NormalizeTagIgnoresCase(u, t);
  }

  /** The initial draft: empty text and author, an empty source and an empty tag list. */
  const EmptyDraft: QuoteFormData := QuoteFormData("", "", Some(""), Some([]))

  /** The form's local state. */
  class QuoteForm {
    var formData: QuoteFormData
    var tagInput: string
    var errors: map<Field, string>

    /** The tag list is duplicate-free and holds only normal tags. */
    ghost predicate Valid()
      reads this
    {
      TagsValid(formData.tags)
    }

    constructor ()
      ensures formData == EmptyDraft && tagInput == "" && errors == map[]
      ensures Valid()
    {
      formData := EmptyDraft;
      tagInput := "";
      errors := map[];
    }

    /** handleChange: set the edited field; clear that field's error if it had one. */
    method HandleChange(name: InputName, value: string)
      modifies this
      ensures formData.text == if name == TextInput then value else old(formData.text)
      ensures formData.author == if name == AuthorInput then value else old(formData.author)
      ensures formData.source == if name == SourceInput then Some(value) else old(formData.source)
      ensures formData.tags == old(formData.tags) && tagInput == old(tagInput)
      ensures errors == if HasError(old(errors), FieldOf(name)) then old(errors)[FieldOf(name) := ""] else old(errors)
      ensures old(Valid()) ==> Valid()
    {
      match name {
        case TextInput => formData := formData.(text := value);
        case AuthorInput => formData := formData.(author := value);
        case SourceInput => formData := formData.(source := Some(value));
      }
      if HasError(errors, FieldOf(name)) {
        errors := errors[FieldOf(name) := ""];
      }
    }

    /** The tag input's change handler. */
    method SetTagInput(value: string)
      modifies this
      ensures tagInput == value && formData == old(formData) && errors == old(errors)
    {
      tagInput := value;
    }

    /** addTag: append the normalized input unless it is blank or already present. */
    method AddTag()
      modifies this
      ensures var t := NormalizeTag(old(tagInput));
        if IsBlank(old(tagInput)) || HasTag(old(formData.tags), t) then
          formData == old(formData) && tagInput == old(tagInput)
        else
          && formData == old(formData).(tags := AppendTag(old(formData.tags), t))
          && tagInput == ""
      ensures errors == old(errors)
      ensures old(Valid()) ==> Valid()
    {
      TrimEmptyIffBlank(tagInput);
      if Trim(tagInput) == "" {
        return;
      }
      if HasTag(formData.tags, ToLower(Trim(tagInput))) {
        return;
      }
      ghost var before := formData.tags;
      formData := formData.(tags := AppendTag(formData.tags, ToLower(Trim(tagInput))));
      if TagsValid(before) {
        AppendTagValid(before, tagInput);
      }
      tagInput := "";
    }

    /** removeTag: drop every occurrence of the tag. */
    method RemoveTag(t: string)
      modifies this
      ensures formData == old(formData).(tags := RemoveTagFrom(old(formData.tags), t))
      ensures tagInput == old(tagInput) && errors == old(errors)
      ensures old(Valid()) ==> Valid()
    {
      ghost var before := formData.tags;
      formData := formData.(tags := RemoveTagFrom(formData.tags, t));
      if TagsValid(before) {
        RemoveTagValid(before, t);
      }
    }

    /**
     * handleSubmit: record an error for each required field that trims to
     * nothing and block submission; otherwise hand the draft, untrimmed,
     * to the caller (the out-parameter stands for the onSubmit call).
     */
    method HandleSubmit() returns (submitted: Option<QuoteFormData>)
      modifies this
      ensures var textMissing := Trim(old(formData).text) == "";
        var authorMissing := Trim(old(formData).author) == "";
        && (submitted.Some? <==> !textMissing && !authorMissing)
        && (submitted.Some? ==> submitted.value == old(formData) && errors == old(errors))
        && (submitted.None? ==>
              && (Text in errors <==> textMissing)
              && (Author in errors <==> authorMissing)
              && errors.Keys <= {Text, Author}
              && forall f :: f in errors ==> errors[f] == RequiredMessage(f))
      ensures formData == old(formData) && tagInput == old(tagInput)
    {
      var newErrors: map<Field, string> := map[];
      if Trim(formData.text) == "" {
        newErrors := newErrors[Text := TextRequired];
      }
      if Trim(formData.author) == "" {
        newErrors := newErrors[Author := AuthorRequired];
      }
      if |newErrors| > 0 {
        errors := newErrors;
        submitted := None;
        return;
      }
      submitted := Some(formData);
    }
  }

  /** A fresh form given whitespace-only text and a real author: submitting shows only the text error and submits nothing. */
  method BlankTextScenario(text: string, author: string) returns (submitted: Option<QuoteFormData>, errors: map<Field, string>)
    requires IsBlank(text) && !IsBlank(author)
    ensures submitted.None? && errors == map[Text := TextRequired]
  {
    var form := new QuoteForm();
    form.HandleChange(TextInput, text);
    form.HandleChange(AuthorInput, author);
    TrimEmptyIffBlank(text);
    TrimEmptyIffBlank(author);
    submitted := form.HandleSubmit();
    errors := form.errors;
    assert errors.Keys == {Text} && errors[Text] == TextRequired;
    assert errors == map[Text := TextRequired];
  }
}
