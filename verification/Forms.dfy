/**
 What is taken from forms and multipart bodies, exactly (extractor.go:398-459): every value of a prompt field that is
 not blank, each at the position that counts those before it, and nothing else.
 */
module Forms {
  import opened Common
  import opened Text
  import opened JsonTree
  import opened Protocols
  import opened AllowList
  import opened Extractor

  // ---------------------------------------------------- keeping what is there

  /** How many of the first `n` offers are there. */
  function Count(offers: seq<Option<Capture>>, n: nat): nat
    requires n <= |offers|
  {
    if n == 0 then 0 else Count(offers, n - 1) + Once(offers[n - 1].Some?)
  }

  /** The captures are the first `n` offers that are there: each stands where those before it end. */
  ghost predicate Keeps(captures: seq<Capture>, offers: seq<Option<Capture>>, n: nat)
    requires n <= |offers|
  {
    && |captures| == Count(offers, n)
    && forall k: nat :: k < n && offers[k].Some? ==>
         Count(offers, k) < |captures| && captures[Count(offers, k)] == offers[k].value
  }

  lemma KeepsNext(captures: seq<Capture>, offers: seq<Option<Capture>>, n: nat)
    requires n < |offers| && Keeps(captures, offers, n)
    ensures Keeps(captures + AsCaptures(offers[n]), offers, n + 1)
  {
    var more := captures + AsCaptures(offers[n]);
    forall k: nat | k < n + 1 && offers[k].Some?
      ensures Count(offers, k) < |more| && more[Count(offers, k)] == offers[k].value
    {
      if k < n { assert captures[Count(offers, k)] == offers[k].value; }
    }
  }

  function AsCaptures(offer: Option<Capture>): seq<Capture> { if offer.Some? then [offer.value] else [] }

  function Kept(offers: seq<Option<Capture>>, n: nat): seq<Capture>
    requires n <= |offers|
    decreases n, 1
  {
    if n == 0 then [] else KeptNext(offers, n)
  }

  function KeptNext(offers: seq<Option<Capture>>, n: nat): seq<Capture>
    requires 0 < n <= |offers|
    decreases n, 0
  {
    Kept(offers, n - 1) + AsCaptures(offers[n - 1])
  }

  lemma {:induction false} KeptKeeps(offers: seq<Option<Capture>>, n: nat)
    requires n <= |offers|
    ensures Keeps(Kept(offers, n), offers, n)
  {
    if n > 0 {
      KeptKeeps(offers, n - 1);
      KeepsNext(Kept(offers, n - 1), offers, n - 1);
      assert Kept(offers, n) == KeptNext(offers, n);
    }
  }

  lemma {:induction false} KeptPrefix(a: seq<Option<Capture>>, b: seq<Option<Capture>>, n: nat)
    requires n <= |a|
    ensures Kept(a + b, n) == Kept(a, n)
  {
    if n > 0 {
      KeptPrefix(a, b, n - 1);
      assert Kept(a + b, n) == KeptNext(a + b, n) && Kept(a, n) == KeptNext(a, n);
    }
  }

  lemma {:induction false} KeptJoin(a: seq<Option<Capture>>, b: seq<Option<Capture>>, n: nat)
    requires n <= |b|
    ensures Kept(a + b, |a| + n) == Kept(a, |a|) + Kept(b, n)
  {
    if n == 0 {
      KeptPrefix(a, b, |a|);
      assert Kept(a, |a|) + [] == Kept(a, |a|);
    } else {
      KeptJoin(a, b, n - 1);
      assert (a + b)[|a| + n - 1] == b[n - 1];
      Regroup(Kept(a, |a|), Kept(b, n - 1), AsCaptures(b[n - 1]));
      assert Kept(b, n) == KeptNext(b, n) && Kept(a + b, |a| + n) == KeptNext(a + b, |a| + n);
    }
  }

  lemma Regroup(a: seq<Capture>, b: seq<Capture>, c: seq<Capture>)
    ensures a + b + c == a + (b + c)
  {
  }

  // ------------------------------------------------------------------- forms

  function Offer(key: string, text: string): Option<Capture> {
    if Blank(text) then None else Some(Capture([Key(key)], text))
  }

  /** The values of one field of a form, those that are not blank being on offer. */
  function Values(form: map<string, seq<string>>, key: string): seq<Option<Capture>> {
    if key in form then seq(|form[key]|, i requires 0 <= i < |form[key]| => Offer(key, form[key][i])) else []
  }

  /** The values of the prompt fields in their fixed order. */
  function FormOffers(form: map<string, seq<string>>): seq<Option<Capture>> {
    Values(form, "prompt") + Values(form, "query") + Values(form, "input") + Values(form, "text")
    + Values(form, "description")
  }

  lemma {:induction false} ValuesKept(form: map<string, seq<string>>, key: string, n: nat)
    requires key in form && n <= |form[key]|
    ensures FormValues(key, form[key], n) == Kept(Values(form, key), n)
  {
    if n > 0 {
      ValuesKept(form, key, n - 1);
      assert Kept(Values(form, key), n) == KeptNext(Values(form, key), n);
      assert Leaf(form[key][n - 1], [Key(key)]) == AsCaptures(Offer(key, form[key][n - 1]));
    }
  }

  lemma FieldKept(form: map<string, seq<string>>, key: string)
    ensures FormField(form, key) == Kept(Values(form, key), |Values(form, key)|)
  {
    if key in form { ValuesKept(form, key, |form[key]|); }
  }

  /** One more field, after the offers of those before it. */
  lemma NextField(form: map<string, seq<string>>, n: nat, offers: seq<Option<Capture>>, key: string)
    requires n < |PROMPT_FIELDS| && PROMPT_FIELDS[n] == key
    requires FormFields(form, PROMPT_FIELDS, n) == Kept(offers, |offers|)
    ensures var more := offers + Values(form, key); FormFields(form, PROMPT_FIELDS, n + 1) == Kept(more, |more|)
  {
    FieldKept(form, key);
    JoinKept(FormFields(form, PROMPT_FIELDS, n), offers, FormField(form, key), Values(form, key));
    assert FormFields(form, PROMPT_FIELDS, n + 1) == FormFields(form, PROMPT_FIELDS, n) + FormField(form, key);
  }

  lemma JoinKept(x: seq<Capture>, a: seq<Option<Capture>>, y: seq<Capture>, b: seq<Option<Capture>>)
    requires x == Kept(a, |a|) && y == Kept(b, |b|)
    ensures x + y == Kept(a + b, |a + b|)
  {
    assert |a + b| == |a| + |b|;
    KeptJoin(a, b, |b|);
  }

  /** A form gives exactly the values of its prompt fields that are not blank, in order. */
  lemma FormIsTaken(form: map<string, seq<string>>)
    ensures Keeps(FormOutcome(Some(form), 0).captures, FormOffers(form), |FormOffers(form)|)
  {
    var a := Values(form, "prompt");
    var b := a + Values(form, "query");
    var c := b + Values(form, "input");
    var d := c + Values(form, "text");
    assert [] + a == a;
    NextField(form, 0, [], "prompt");
    NextField(form, 1, a, "query");
    NextField(form, 2, b, "input");
    NextField(form, 3, c, "text");
    NextField(form, 4, d, "description");
    KeptKeeps(FormOffers(form), |FormOffers(form)|);
  }

  // --------------------------------------------------------------- multipart

  function FieldName(part: FormPart): string { Lower(Trim(part.formName)) }

  /** The part is a prompt field and no file. */
  predicate PromptPart(part: FormPart) { FieldName(part) in PROMPT_NAMES && part.fileName == "" }

  /** What is read of it: at most 1 MiB. */
  function FirstMiB(data: string): string { if |data| <= 1_048_576 then data else data[..1_048_576] }

  predicate FilledPart(part: FormPart) { PromptPart(part) && !Blank(FirstMiB(part.data)) }

  /** The part is a prompt field that could not be read to its end, and to less than 1 MiB. */
  predicate Unreadable(part: FormPart) { PromptPart(part) && part.fails && |part.data| < 1_048_576 }

  function PartOffer(part: FormPart): Option<Capture> {
    if FilledPart(part) then Some(Capture([Key(FieldName(part))], FirstMiB(part.data))) else None
  }

  /** The parts, the filled prompt parts being on offer. */
  function PartOffers(parts: seq<FormPart>): seq<Option<Capture>> {
    seq(|parts|, i requires 0 <= i < |parts| => PartOffer(parts[i]))
  }

  lemma PartTaken(part: FormPart)
    ensures PartField(part) == AsCaptures(PartOffer(part))
    ensures part.Broken() <==> Unreadable(part)
  {
    assert PROMPT_NAMES == PROMPT_FIELDS;
  }

  lemma {:induction false} PartsKept(parts: seq<FormPart>, n: nat)
    requires n <= |parts|
    ensures PartFields(parts, n) == Kept(PartOffers(parts), n)
  {
    if n > 0 {
      PartsKept(parts, n - 1);
      assert Kept(PartOffers(parts), n) == KeptNext(PartOffers(parts), n);
      PartTaken(parts[n - 1]);
      assert PartOffers(parts)[n - 1] == PartOffer(parts[n - 1]);
    }
  }

  /** `n` is the first part that cannot be read, or the end; nothing is read without header and boundary. */
  predicate ReadUpTo(p: Payload, n: nat)
    requires p.Multipart?
  {
    if !p.header || !p.boundary then n == 0
    else
      && n <= |p.parts| && (n < |p.parts| ==> Unreadable(p.parts[n]))
      && forall k :: 0 <= k < n ==> !Unreadable(p.parts[k])
  }

  /** A multipart body gives exactly the filled prompt parts before the first that cannot be read, in order. */
  lemma MultipartIsTaken(p: Payload, n: nat)
    requires p.Multipart? && ReadUpTo(p, n)
    ensures Keeps(MultipartOutcome(p, 0).captures, PartOffers(p.parts), n)
  {
    KeptKeeps(PartOffers(p.parts), n);
    if p.header && p.boundary {
      FirstUnreadable(p, n);
      PartsKept(p.parts, n);
    }
  }

  lemma FirstUnreadable(p: Payload, n: nat)
    requires p.Multipart? && p.header && p.boundary && ReadUpTo(p, n)
    ensures FirstBroken(p.parts, 0) == n
  {
    forall k | 0 <= k < |p.parts|
      ensures p.parts[k].Broken() <==> Unreadable(p.parts[k])
    {
      PartTaken(p.parts[k]);
    }
  }
}
