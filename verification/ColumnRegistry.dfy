/**
  Recognising spreadsheet columns: the answer of a language model, the template
  learned from it, and the search of the stored templates
  (backend/agent/column_registry.py).
  `norm` stands for the normalisation of header texts.
 */
module ColumnRegistry {
  import opened Common

  const UNKNOWN: string := "unknown"

  type Norm = string -> string

  // ---- the model's answer ----

  /** One column as the model describes it; missing entries are None. */
  datatype LlmColumn = LlmColumn(original: string, canonical: Option<string>)
  datatype LlmReply = LlmReply(schemaName: string, confidence: real, columns: seq<LlmColumn>)

  datatype Detection = Detection(mappings: map<string, string>, unrecognized: seq<string>)

  /** The entry for a normalised header: the last one listed. */
  function Entry(norm: Norm, columns: seq<LlmColumn>, n: string): Option<string> {
    if columns == [] then None
    else
      var last := columns[|columns| - 1];
      if norm(last.original) == n then last.canonical else Entry(norm, columns[..|columns| - 1], n)
  }

  /** The canonical name the model gives a header; missing and empty names mean unknown. */
  function Canonical(norm: Norm, columns: seq<LlmColumn>, header: string): string {
    OrUnknown(Entry(norm, columns, norm(header)))
  }

  function OrUnknown(name: Option<string>): string {
    match name
    case None => UNKNOWN
    case Some(c) => if c == "" then UNKNOWN else c
  }

  function Lookup(index: map<string, Option<string>>, n: string): Option<string> {
    if n in index then index[n] else None
  }

  function Parsed(norm: Norm, columns: seq<LlmColumn>, headers: seq<string>): Detection {
    Detection(map h | h in headers :: Canonical(norm, columns, h),
              Unrecognized(norm, columns, headers))
  }

  function Unrecognized(norm: Norm, columns: seq<LlmColumn>, headers: seq<string>): seq<string> {
    if headers == [] then []
    else
      var n := |headers| - 1;
      Unrecognized(norm, columns, headers[..n])
      + if Canonical(norm, columns, headers[n]) == UNKNOWN then [headers[n]] else []
  }

  method IndexByOriginal(norm: Norm, columns: seq<LlmColumn>) returns (byOriginal: map<string, Option<string>>)
    ensures forall n :: Lookup(byOriginal, n) == Entry(norm, columns, n)
  {
    byOriginal := map[];
    for i := 0 to |columns|
      invariant forall n :: Lookup(byOriginal, n) == Entry(norm, columns[..i], n)
    {
      assert columns[..i + 1][..i] == columns[..i];
      byOriginal := byOriginal[norm(columns[i].original) := columns[i].canonical];
    }
    assert columns[..|columns|] == columns;
  }

  method ParseLlmResponse(norm: Norm, columns: seq<LlmColumn>, headers: seq<string>) returns (d: Detection)
    ensures d == Parsed(norm, columns, headers)
  {
    var byOriginal := IndexByOriginal(norm, columns);
    var mappings: map<string, string> := map[];
    var unrecognized := [];
    for i := 0 to |headers|
      invariant mappings == map h | h in headers[..i] :: Canonical(norm, columns, h)
      invariant unrecognized == Unrecognized(norm, columns, headers[..i])
    {
      assert headers[..i + 1][..i] == headers[..i];
      assert headers[..i + 1] == headers[..i] + [headers[i]];
      var canonical := OrUnknown(Lookup(byOriginal, norm(headers[i])));
      assert canonical == Canonical(norm, columns, headers[i]);
      mappings := mappings[headers[i] := canonical];
      if canonical == UNKNOWN {
        unrecognized := unrecognized + [headers[i]];
      }
    }
    assert headers[..|headers|] == headers;
    return Detection(mappings, unrecognized);
  }

  /** What the model says about a header is what its last entry for the header's text says. */
  lemma {:induction false} EntryIsLast(norm: Norm, columns: seq<LlmColumn>, n: string, i: nat)
    requires i <= |columns| && forall j :: i < j < |columns| ==> norm(columns[j].original) != n
    requires i < |columns| ==> norm(columns[i].original) == n
    requires i == |columns| ==> forall j :: 0 <= j < |columns| ==> norm(columns[j].original) != n
    ensures Entry(norm, columns, n) == if i < |columns| then columns[i].canonical else None
  {
    if columns != [] {
      var last := |columns| - 1;
      if i != last {
        EntryIsLast(norm, columns[..last], n, if i < last then i else last);
      }
    }
  }

  // ---- templates ----

  datatype Column = Column(canonical: string, aliases: seq<string>)
  datatype Template = Template(name: string, threshold: real, columns: seq<Column>)

  /** The columns learned from a detection: each recognised header once, in order, as alias of its canonical name. */
  function Learned(mappings: map<string, string>, headers: seq<string>): seq<Column>
    requires forall h :: h in headers ==> h in mappings
  {
    if headers == [] then []
    else
      var n := |headers| - 1;
      var before, h := Learned(mappings, headers[..n]), headers[n];
      if h in headers[..n] || mappings[h] == UNKNOWN then before else before + [Column(mappings[h], [h])]
  }

  predicate Claims(norm: Norm, col: Column, n: string) {
    (exists i :: 0 <= i < |col.aliases| && norm(col.aliases[i]) == n) || norm(col.canonical) == n
  }

  /** The canonical name of the last column that claims the normalised header, if any. */
  function LastClaim(norm: Norm, columns: seq<Column>, n: string): Option<string> {
    if columns == [] then None
    else
      var last := columns[|columns| - 1];
      if Claims(norm, last, n) then Some(last.canonical) else LastClaim(norm, columns[..|columns| - 1], n)
  }

  /** A header belongs to the last column that lists it as an alias or bears its name. */
  lemma {:induction false} LastClaimIsLast(norm: Norm, columns: seq<Column>, n: string, i: nat)
    requires i <= |columns| && forall j :: i < j < |columns| ==> !Claims(norm, columns[j], n)
    requires i < |columns| ==> norm(columns[i].canonical) == n || exists a :: a in columns[i].aliases && norm(a) == n
    requires i == |columns| ==> forall j :: 0 <= j < |columns| ==> !Claims(norm, columns[j], n)
    ensures LastClaim(norm, columns, n) == if i < |columns| then Some(columns[i].canonical) else None
  {
    if columns != [] {
      var last := |columns| - 1;
      if i != last {
        LastClaimIsLast(norm, columns[..last], n, if i < last then i else last);
      } else if norm(columns[i].canonical) != n {
        var a :| a in columns[i].aliases && norm(a) == n;
        var k :| 0 <= k < |columns[i].aliases| && columns[i].aliases[k] == a;
      }
    }
  }

  /** Recognised by the template: claimed under a non-empty canonical name. */
  predicate Known(norm: Norm, columns: seq<Column>, header: string) {
    LastClaim(norm, columns, norm(header)).Some? && LastClaim(norm, columns, norm(header)).value != ""
  }

  function NameFor(norm: Norm, columns: seq<Column>, header: string): string {
    if Known(norm, columns, header) then LastClaim(norm, columns, norm(header)).value else UNKNOWN
  }

  function Matched(norm: Norm, columns: seq<Column>, headers: seq<string>): Detection {
    Detection(map h | h in headers :: NameFor(norm, columns, h), Missed(norm, columns, headers))
  }

  function Missed(norm: Norm, columns: seq<Column>, headers: seq<string>): seq<string> {
    if headers == [] then []
    else
      var n := |headers| - 1;
      Missed(norm, columns, headers[..n]) + if Known(norm, columns, headers[n]) then [] else [headers[n]]
  }

  /**
    A header gets the name of the column it belongs to. It is unrecognised, and
    unknown, exactly if it belongs to none or to one without a name.
   */
  lemma {:induction false} MatchedMeans(norm: Norm, columns: seq<Column>, headers: seq<string>, h: string)
    requires h in headers
    ensures
      var owner, d := LastClaim(norm, columns, norm(h)), Matched(norm, columns, headers);
      && (h in d.unrecognized <==> owner.None? || owner.value == "")
      && h in d.mappings
      && d.mappings[h] == if owner.None? || owner.value == "" then "unknown" else owner.value
  {
    MissedAre(norm, columns, headers, h);
  }

  lemma {:induction false} MissedAre(norm: Norm, columns: seq<Column>, headers: seq<string>, h: string)
    ensures h in Missed(norm, columns, headers) <==> h in headers && !Known(norm, columns, h)
  {
    if headers != [] {
      var n := |headers| - 1;
      assert headers == headers[..n] + [headers[n]];
      MissedAre(norm, columns, headers[..n], h);
    }
  }

  lemma {:induction false} MissedSize(norm: Norm, columns: seq<Column>, headers: seq<string>)
    ensures |Missed(norm, columns, headers)| <= |headers|
  {
    if headers != [] {
      MissedSize(norm, columns, headers[..|headers| - 1]);
    }
  }

  /** The fraction of the headers a template recognises. */
  function Confidence(norm: Norm, columns: seq<Column>, headers: seq<string>): real {
    if headers == [] then 0.0 else (|headers| - |Missed(norm, columns, headers)|) as real / |headers| as real
  }

  method BuildAliasIndex(norm: Norm, columns: seq<Column>) returns (index: map<string, string>)
    ensures forall n :: (if n in index then Some(index[n]) else None) == LastClaim(norm, columns, n)
  {
    index := map[];
    for i := 0 to |columns|
      invariant forall n :: (if n in index then Some(index[n]) else None) == LastClaim(norm, columns[..i], n)
    {
      assert columns[..i + 1][..i] == columns[..i];
      var col := columns[i];
      ghost var before := index;
      for j := 0 to |col.aliases|
        invariant forall n ::
          (if n in index then Some(index[n]) else None) ==
            if exists k :: 0 <= k < j && norm(col.aliases[k]) == n then Some(col.canonical)
            else if n in before then Some(before[n]) else None
      {
        index := index[norm(col.aliases[j]) := col.canonical];
      }
      index := index[norm(col.canonical) := col.canonical];
    }
    assert columns[..|columns|] == columns;
  }

  method MatchTemplate(norm: Norm, columns: seq<Column>, headers: seq<string>) returns (d: Detection, confidence: real)
    ensures d == Matched(norm, columns, headers) && confidence == Confidence(norm, columns, headers)
  {
    var matched;
    d, matched := MatchHeaders(norm, columns, headers);
    confidence := if headers == [] then 0.0 else matched as real / |headers| as real;
  }

  method MatchHeaders(norm: Norm, columns: seq<Column>, headers: seq<string>) returns (d: Detection, matched: nat)
    ensures d == Matched(norm, columns, headers) && matched == |headers| - |Missed(norm, columns, headers)|
  {
    var index := BuildAliasIndex(norm, columns);
    var mappings: map<string, string> := map[];
    var unrecognized := [];
    matched := 0;
    for i := 0 to |headers|
      invariant mappings == map h | h in headers[..i] :: NameFor(norm, columns, h)
      invariant unrecognized == Missed(norm, columns, headers[..i])
      invariant matched == i - |unrecognized|
    {
      assert headers[..i + 1][..i] == headers[..i];
      assert headers[..i + 1] == headers[..i] + [headers[i]];
      var n := norm(headers[i]);
      assert (if n in index then Some(index[n]) else None) == LastClaim(norm, columns, n);
      var canonical := if n in index && index[n] != "" then index[n] else UNKNOWN;
      assert canonical == NameFor(norm, columns, headers[i]);
      mappings := mappings[headers[i] := canonical];
      if n in index && index[n] != "" {
        matched := matched + 1;
      } else {
        unrecognized := unrecognized + [headers[i]];
      }
    }
    assert headers[..|headers|] == headers;
    d := Detection(mappings, unrecognized);
  }

  predicate Qualifies(norm: Norm, t: Template, headers: seq<string>) {
    t.columns != [] && Confidence(norm, t.columns, headers) >= t.threshold && Confidence(norm, t.columns, headers) > 0.0
  }

  /** The first template of maximal confidence among those over their threshold, or |templates|. */
  ghost predicate IsBest(norm: Norm, templates: seq<Template>, headers: seq<string>, k: nat) {
    && k <= |templates|
    && (k < |templates| ==> Qualifies(norm, templates[k], headers))
    && forall j :: 0 <= j < |templates| && Qualifies(norm, templates[j], headers) ==>
         && k < |templates|
         && Confidence(norm, templates[j].columns, headers) <= Confidence(norm, templates[k].columns, headers)
         && (j < k ==>
               Confidence(norm, templates[j].columns, headers) < Confidence(norm, templates[k].columns, headers))
  }

  ghost predicate SomeQualifies(norm: Norm, templates: seq<Template>, headers: seq<string>) {
    exists j :: 0 <= j < |templates| && Qualifies(norm, templates[j], headers)
  }

  method TryTemplates(norm: Norm, templates: seq<Template>, headers: seq<string>)
    returns (d: Option<Detection>, k: nat)
    ensures IsBest(norm, templates, headers, k)
    ensures d == if k < |templates| then Some(Matched(norm, templates[k].columns, headers)) else None
  {
    d, k := None, |templates|;
    var best := 0.0;
    for i := 0 to |templates|
      invariant d.None? ==> k == |templates| && best == 0.0
      invariant d.Some? ==>
        && k < i && d.value == Matched(norm, templates[k].columns, headers)
        && best == Confidence(norm, templates[k].columns, headers) && Qualifies(norm, templates[k], headers)
      invariant forall j :: 0 <= j < i && Qualifies(norm, templates[j], headers) ==>
        && d.Some? && Confidence(norm, templates[j].columns, headers) <= best
        && (j < k ==> Confidence(norm, templates[j].columns, headers) < best)
    {
      var t := templates[i];
      if t.columns == [] {
        continue;
      }
      var m, confidence := MatchTemplate(norm, t.columns, headers);
      if confidence >= t.threshold && confidence > best {
        best, d, k := confidence, Some(m), i;
      }
    }
  }

  // ---- the learned template against the detection it was learned from ----

  /** Header i is the first of its text and the model has recognised it, so a column is learned from it. */
  predicate Teaches(norm: Norm, columns: seq<LlmColumn>, headers: seq<string>, i: nat) {
    i < |headers| && headers[i] !in headers[..i] && Canonical(norm, columns, headers[i]) != UNKNOWN
  }

  /** The column learned from header i would claim the normalised header n. */
  predicate WouldClaim(norm: Norm, columns: seq<LlmColumn>, headers: seq<string>, i: nat, n: string)
    requires i < |headers|
  {
    norm(headers[i]) == n || norm(Canonical(norm, columns, headers[i])) == n
  }

  /** No column learned after header g's claims h under h's own canonical name. */
  predicate NotReclaimed(norm: Norm, columns: seq<LlmColumn>, headers: seq<string>, g: nat, h: string) {
    forall j | g < j < |headers| ::
      Teaches(norm, columns, headers, j) && WouldClaim(norm, columns, headers, j, norm(h)) ==>
        Canonical(norm, columns, headers[j]) != Canonical(norm, columns, h)
  }

  /** Header g teaches a column that takes h away from its own canonical name. */
  predicate Shadows(norm: Norm, columns: seq<LlmColumn>, headers: seq<string>, g: nat, h: string) {
    && Teaches(norm, columns, headers, g)
    && Canonical(norm, columns, headers[g]) != Canonical(norm, columns, h)
    && norm(Canonical(norm, columns, headers[g])) == norm(h)
    && NotReclaimed(norm, columns, headers, g, h)
  }

  /**
    A column learned under another canonical name claims the header through that
    name, and no column learned after it claims the header under its own.
   */
  predicate Shadowed(norm: Norm, columns: seq<LlmColumn>, headers: seq<string>, h: string) {
    exists g | 0 <= g < |headers| :: Shadows(norm, columns, headers, g, h)
  }

  /** The last of the first k headers that teaches a column claiming n, or |headers|. */
  function LastClaimer(norm: Norm, columns: seq<LlmColumn>, headers: seq<string>, k: nat, n: string): (i: nat)
    requires k <= |headers|
    ensures i < |headers| ==>
      && i < k && Teaches(norm, columns, headers, i) && WouldClaim(norm, columns, headers, i, n)
      && forall j | i < j < k :: Teaches(norm, columns, headers, j) ==> !WouldClaim(norm, columns, headers, j, n)
    ensures i >= |headers| ==>
      forall j | 0 <= j < k :: Teaches(norm, columns, headers, j) ==> !WouldClaim(norm, columns, headers, j, n)
  {
    if k == 0 then |headers|
    else if Teaches(norm, columns, headers, k - 1) && WouldClaim(norm, columns, headers, k - 1, n) then k - 1
    else LastClaimer(norm, columns, headers, k - 1, n)
  }

  lemma {:induction false} LastOfMore(norm: Norm, cols: seq<Column>, col: Column, n: string)
    requires |col.aliases| == 1
    ensures LastClaim(norm, cols + [col], n) ==
      if norm(col.aliases[0]) == n || norm(col.canonical) == n then Some(col.canonical) else LastClaim(norm, cols, n)
  {
    assert (cols + [col])[..|cols|] == cols;
  }

  /** What the learned columns claim is decided by the last header that teaches a claiming column. */
  lemma {:induction false} LastClaimIs(norm: Norm, columns: seq<LlmColumn>, headers: seq<string>, k: nat, n: string)
    requires k <= |headers|
    ensures
      var i := LastClaimer(norm, columns, headers, k, n);
      LastClaim(norm, Learned(Parsed(norm, columns, headers).mappings, headers[..k]), n)
        == if i < |headers| then Some(Canonical(norm, columns, headers[i])) else None
  {
    if k > 0 {
      var m, g := Parsed(norm, columns, headers).mappings, headers[k - 1];
      LastClaimIs(norm, columns, headers, k - 1, n);
      assert headers[..k][..k - 1] == headers[..k - 1];
      LastOfMore(norm, Learned(m, headers[..k - 1]), Column(m[g], [g]), n);
    }
  }

  /** For every header, the last learned column that claims it carries the name that the model gave it. */
  predicate NamesKept(norm: Norm, columns: seq<LlmColumn>, headers: seq<string>) {
    var learned := Learned(Parsed(norm, columns, headers).mappings, headers);
    forall h :: h in headers ==> NameKept(norm, columns, learned, h)
  }

  predicate NameKept(norm: Norm, columns: seq<LlmColumn>, learned: seq<Column>, h: string) {
    LastClaim(norm, learned, norm(h)) ==
      if Canonical(norm, columns, h) == UNKNOWN then None else Some(Canonical(norm, columns, h))
  }

  function FirstIndex(headers: seq<string>, h: string): (i: nat)
    requires h in headers
    ensures i < |headers| && headers[i] == h && h !in headers[..i]
  {
    if headers[0] == h then 0 else
      var i := FirstIndex(headers[1..], h);
      assert headers[..i + 1] == [headers[0]] + headers[1..][..i];
      i + 1
  }

  lemma {:induction false} ShadowClaimsLast(norm: Norm, columns: seq<LlmColumn>, headers: seq<string>, g: nat,
      h: string)
    requires Shadows(norm, columns, headers, g, h)
    ensures
      var i := LastClaimer(norm, columns, headers, |headers|, norm(h));
      i < |headers| && Canonical(norm, columns, headers[i]) != Canonical(norm, columns, h)
  {
    assert WouldClaim(norm, columns, headers, g, norm(h));
  }

  lemma {:induction false} LastClaimShadows(norm: Norm, columns: seq<LlmColumn>, headers: seq<string>, h: string)
    requires
      var i := LastClaimer(norm, columns, headers, |headers|, norm(h));
      i < |headers| && Canonical(norm, columns, headers[i]) != Canonical(norm, columns, h)
    ensures Shadowed(norm, columns, headers, h)
  {
    var i := LastClaimer(norm, columns, headers, |headers|, norm(h));
    assert norm(headers[i]) != norm(h);
    assert Shadows(norm, columns, headers, i, h);
  }

  lemma {:induction false} RecognisedIsClaimed(norm: Norm, columns: seq<LlmColumn>, headers: seq<string>, h: string)
    requires h in headers && Canonical(norm, columns, h) != UNKNOWN
    ensures LastClaimer(norm, columns, headers, |headers|, norm(h)) < |headers|
  {
    var f := FirstIndex(headers, h);
    assert Teaches(norm, columns, headers, f) && WouldClaim(norm, columns, headers, f, norm(h));
  }

  lemma {:induction false} KeptUnlessShadowed(norm: Norm, columns: seq<LlmColumn>, headers: seq<string>, h: string)
    requires h in headers
    ensures
      var learned := Learned(Parsed(norm, columns, headers).mappings, headers);
      NameKept(norm, columns, learned, h) <==> !Shadowed(norm, columns, headers, h)
  {
    var i := LastClaimer(norm, columns, headers, |headers|, norm(h));
    assert headers[..|headers|] == headers;
    LastClaimIs(norm, columns, headers, |headers|, norm(h));
    if Canonical(norm, columns, h) != UNKNOWN {
      RecognisedIsClaimed(norm, columns, headers, h);
    }
    if i < |headers| && Canonical(norm, columns, headers[i]) != Canonical(norm, columns, h) {
      LastClaimShadows(norm, columns, headers, h);
    }
    if Shadowed(norm, columns, headers, h) {
      var g :| 0 <= g < |headers| && Shadows(norm, columns, headers, g, h);
      ShadowClaimsLast(norm, columns, headers, g, h);
    }
  }

  /** No header normalises to the canonical name of another column. */
  predicate NoCollision(norm: Norm, columns: seq<LlmColumn>, headers: seq<string>) {
    forall h, g | h in headers && g in headers ::
      Canonical(norm, columns, g) != UNKNOWN && norm(Canonical(norm, columns, g)) == norm(h) ==>
        Canonical(norm, columns, h) == Canonical(norm, columns, g)
  }

  lemma {:induction false} CanonicalNonEmpty(norm: Norm, columns: seq<LlmColumn>, header: string)
    ensures Canonical(norm, columns, header) != ""
  {
  }

  lemma {:induction false} MissedAgrees(norm: Norm, columns: seq<LlmColumn>, learned: seq<Column>, headers: seq<string>)
    requires forall h :: h in headers ==> (Known(norm, learned, h) <==> Canonical(norm, columns, h) != UNKNOWN)
    ensures Missed(norm, learned, headers) == Unrecognized(norm, columns, headers)
  {
    if headers != [] {
      MissedAgrees(norm, columns, learned, headers[..|headers| - 1]);
    }
  }

  lemma {:induction false} MissedMembers(norm: Norm, columns: seq<LlmColumn>, learned: seq<Column>,
      headers: seq<string>, h: string)
    ensures h in Missed(norm, learned, headers) <==> h in headers && !Known(norm, learned, h)
    ensures h in Unrecognized(norm, columns, headers) <==> h in headers && Canonical(norm, columns, h) == UNKNOWN
  {
    if headers != [] {
      var n := |headers| - 1;
      assert headers == headers[..n] + [headers[n]];
      MissedMembers(norm, columns, learned, headers[..n], h);
    }
  }

  lemma {:induction false} LearnedAgreesIfKept(norm: Norm, columns: seq<LlmColumn>, headers: seq<string>)
    ensures
      var d := Parsed(norm, columns, headers);
      Matched(norm, Learned(d.mappings, headers), headers) == d <==> NamesKept(norm, columns, headers)
  {
    var d := Parsed(norm, columns, headers);
    var learned := Learned(d.mappings, headers);
    var m := Matched(norm, learned, headers);
    if NamesKept(norm, columns, headers) {
      forall h | h in headers
        ensures Known(norm, learned, h) <==> Canonical(norm, columns, h) != UNKNOWN
        ensures m.mappings[h] == d.mappings[h]
      {
        assert NameKept(norm, columns, learned, h);
        CanonicalNonEmpty(norm, columns, h);
      }
      MissedAgrees(norm, columns, learned, headers);
      assert m.mappings == d.mappings;
    }
    if m == d {
      forall h | h in headers
        ensures NameKept(norm, columns, learned, h)
      {
        MissedMembers(norm, columns, learned, headers, h);
        assert m.mappings[h] == d.mappings[h] == Canonical(norm, columns, h);
        CanonicalNonEmpty(norm, columns, h);
        LearnedNonEmpty(norm, columns, d.mappings, headers, norm(h));
      }
    }
  }

  /**
    Matching the same headers against the template learned from a detection
    gives that detection back, mappings and unrecognised headers, exactly when
    no header is shadowed by a later column.
   */
  lemma {:induction false} LearnedAgreesExactlyWhen(norm: Norm, columns: seq<LlmColumn>, headers: seq<string>)
    ensures
      var d := Parsed(norm, columns, headers);
      var agrees := Matched(norm, Learned(d.mappings, headers), headers) == d;
      agrees <==> forall h :: h in headers ==> !Shadowed(norm, columns, headers, h)
  {
    LearnedAgreesIfKept(norm, columns, headers);
    var learned := Learned(Parsed(norm, columns, headers).mappings, headers);
    forall h | h in headers
      ensures NameKept(norm, columns, learned, h) <==> !Shadowed(norm, columns, headers, h)
    {
      KeptUnlessShadowed(norm, columns, headers, h);
    }
  }

  /** In particular when no header normalises to another column's canonical name. */
  lemma {:induction false} NoCollisionNoShadow(norm: Norm, columns: seq<LlmColumn>, headers: seq<string>)
    requires NoCollision(norm, columns, headers)
    ensures forall h :: h in headers ==> !Shadowed(norm, columns, headers, h)
    ensures
      var d := Parsed(norm, columns, headers);
      Matched(norm, Learned(d.mappings, headers), headers) == d
  {
    LearnedAgreesExactlyWhen(norm, columns, headers);
  }

  lemma {:induction false} LearnedNonEmpty(norm: Norm, columns: seq<LlmColumn>, mappings: map<string, string>,
      headers: seq<string>, n: string)
    requires forall h :: h in headers ==> h in mappings && mappings[h] == Canonical(norm, columns, h)
    ensures LastClaim(norm, Learned(mappings, headers), n).Some? ==>
      LastClaim(norm, Learned(mappings, headers), n).value !in {"", UNKNOWN}
  {
    if headers != [] {
      var k := |headers| - 1;
      var before, h := Learned(mappings, headers[..k]), headers[k];
      LearnedNonEmpty(norm, columns, mappings, headers[..k], n);
      CanonicalNonEmpty(norm, columns, h);
      if !(h in headers[..k] || mappings[h] == UNKNOWN) {
        assert (before + [Column(mappings[h], [h])])[..|before|] == before;
      }
    }
  }

  // ---- detection with a store of templates ----

  datatype Source = FromTemplate | FromRules | FromModel | FromNothing

  const LEARN_CONFIDENCE: real := 0.6
  const DEFAULT_THRESHOLD: real := 0.5
  const NO_NAME: string := "Unknown format"

  function Learnable(norm: Norm, reply: LlmReply, headers: seq<string>): bool {
    && reply.confidence >= LEARN_CONFIDENCE && reply.schemaName != NO_NAME
    && Learned(Parsed(norm, reply.columns, headers).mappings, headers) != []
  }

  /** Index of the template of that name, or |templates|. */
  function Named(templates: seq<Template>, name: string): (k: nat)
    ensures k <= |templates| && (k < |templates| ==> templates[k].name == name)
  {
    if templates == [] || templates[0].name == name then 0 else 1 + Named(templates[1..], name)
  }

  /** Create the template, or replace the columns of the one that has its name. */
  function Saved(templates: seq<Template>, name: string, columns: seq<Column>): seq<Template> {
    var k := Named(templates, name);
    if k == |templates| then templates + [Template(name, DEFAULT_THRESHOLD, columns)]
    else templates[k := templates[k].(columns := columns)]
  }

  /**
    An answer is learned if and only if the model is at least 0.6 confident, has
    a name for the format, and recognises a header.
   */
  lemma {:induction false} LearnableExactlyWhen(norm: Norm, reply: LlmReply, headers: seq<string>)
    ensures Learnable(norm, reply, headers) <==>
      && reply.confidence >= 0.6 && reply.schemaName != "Unknown format"
      && exists h :: h in headers && Canonical(norm, reply.columns, h) != "unknown"
  {
    LearnedNothing(Parsed(norm, reply.columns, headers).mappings, headers);
  }

  lemma {:induction false} LearnedNothing(mappings: map<string, string>, headers: seq<string>)
    requires forall h :: h in headers ==> h in mappings
    ensures Learned(mappings, headers) == [] <==> forall h :: h in headers ==> mappings[h] == UNKNOWN
  {
    if headers != [] {
      var n := |headers| - 1;
      assert headers == headers[..n] + [headers[n]];
      LearnedNothing(mappings, headers[..n]);
    }
  }

  /** A saved template has the name and the columns; a new one has threshold 0.5, an old one keeps its own. */
  lemma {:induction false} SavedIs(templates: seq<Template>, name: string, columns: seq<Column>)
    ensures
      var k, saved := Named(templates, name), Saved(templates, name, columns);
      && k < |saved| && saved[k].name == name && saved[k].columns == columns
      && saved[k].threshold == (if k < |templates| then templates[k].threshold else 0.5)
      && |saved| == (if k < |templates| then |templates| else |templates| + 1)
      && (forall j :: 0 <= j < |templates| && j != k ==> saved[j] == templates[j])
      && (k == |templates| ==> forall j :: 0 <= j < |templates| ==> templates[j].name != name)
  {
    NamedIsFirst(templates, name);
  }

  lemma {:induction false} NamedIsFirst(templates: seq<Template>, name: string)
    ensures forall j :: 0 <= j < Named(templates, name) ==> templates[j].name != name
  {
    if templates != [] && templates[0].name != name {
      NamedIsFirst(templates[1..], name);
      assert forall j :: 0 < j < |templates| ==> templates[j] == templates[1..][j - 1];
    }
  }

  // ---- keyword inference for what is left ----

  /** The name that the keyword rules see for an unrecognised header. */
  function NameToInfer(d: Detection, header: string): string {
    if header in d.mappings && d.mappings[header] != UNKNOWN then d.mappings[header] else header
  }

  /** The unrecognised headers for which the keyword rules find no category either. */
  function StillUnrecognized(infers: string -> bool, d: Detection, headers: seq<string>): seq<string> {
    if headers == [] then []
    else
      var n := |headers| - 1;
      StillUnrecognized(infers, d, headers[..n])
      + if infers(NameToInfer(d, headers[n])) then [] else [headers[n]]
  }

  function Categorised(infers: string -> bool, d: Detection): Detection {
    d.(unrecognized := StillUnrecognized(infers, d, d.unrecognized))
  }

  lemma {:induction false} StillUnrecognizedAre(infers: string -> bool, d: Detection, headers: seq<string>, h: string)
    ensures h in StillUnrecognized(infers, d, headers) <==> h in headers && !infers(NameToInfer(d, h))
  {
    if headers != [] {
      var n := |headers| - 1;
      assert headers == headers[..n] + [headers[n]];
      StillUnrecognizedAre(infers, d, headers[..n], h);
    }
  }

  /**
    An unrecognised header stays one exactly if the keyword rules find no
    category: for the name it is mapped to, or for the header itself if that is
    unknown or it is not mapped.
   */
  lemma {:induction false} JudgedByName(infers: string -> bool, d: Detection, h: string)
    ensures h in Categorised(infers, d).unrecognized <==>
      && h in d.unrecognized
      && !infers(if h !in d.mappings || d.mappings[h] == "unknown" then h else d.mappings[h])
  {
    StillUnrecognizedAre(infers, d, d.unrecognized, h);
  }

  /** The mapping stays; a header is no longer listed as unrecognised exactly if its category can be inferred. */
  method ApplyAutoCategorization(infers: string -> bool, d: Detection) returns (r: Detection)
    ensures r == Categorised(infers, d) && r.mappings == d.mappings
    ensures forall h :: h in r.unrecognized <==> h in d.unrecognized && !infers(NameToInfer(d, h))
  {
    var still: seq<string> := [];
    for i := 0 to |d.unrecognized|
      invariant still == StillUnrecognized(infers, d, d.unrecognized[..i])
    {
      assert d.unrecognized[..i + 1][..i] == d.unrecognized[..i];
      if !infers(NameToInfer(d, d.unrecognized[i])) {
        still := still + [d.unrecognized[i]];
      }
    }
    assert d.unrecognized[..|d.unrecognized|] == d.unrecognized;
    forall h
      ensures h in still <==> h in d.unrecognized && !infers(NameToInfer(d, h))
    {
      StillUnrecognizedAre(infers, d, d.unrecognized, h);
    }
    return d.(unrecognized := still);
  }

  class Registry {
    const norm: Norm
    const infers: string -> bool   // the keyword rules find a category for the name
    var templates: seq<Template>

    constructor (norm: Norm, infers: string -> bool)
      ensures this.norm == norm && this.infers == infers && templates == []
    {
      this.norm, this.infers, templates := norm, infers, [];
    }

    /**
      The detection pipeline: stored templates, then rules, then the model. The
      model's answer (None if the call fails) is consulted only when neither
      recognises the headers, and then it may be learned. Whatever the source,
      headers whose category can be inferred are struck from the unrecognised.
     */
    method DetectColumns(headers: seq<string>, rules: Option<Detection>, reply: Option<LlmReply>)
      returns (d: Detection, source: Source)
      modifies this
      ensures headers == [] ==> source.FromNothing? && templates == old(templates) && d == Detection(map[], [])
      ensures headers != [] ==>
        source == if SomeQualifies(norm, old(templates), headers) then FromTemplate
                  else if rules.Some? then FromRules
                  else if reply.Some? then FromModel
                  else FromNothing
      ensures source.FromTemplate? ==>
        && templates == old(templates)
        && exists k: nat ::
             && k < |templates| && IsBest(norm, templates, headers, k)
             && d == Categorised(infers, Matched(norm, templates[k].columns, headers))
      ensures source.FromRules? ==>
        rules.Some? && d == Categorised(infers, rules.value) && templates == old(templates)
      ensures source.FromModel? ==>
        && rules.None? && reply.Some? && d == Categorised(infers, Parsed(norm, reply.value.columns, headers))
        && templates == (if Learnable(norm, reply.value, headers)
                         then Saved(old(templates), reply.value.schemaName, Learned(d.mappings, headers))
                         else old(templates))
      ensures source.FromNothing? && headers != [] ==>
        && templates == old(templates)
        && d == Categorised(infers, Detection(map h | h in headers :: UNKNOWN, headers))
    {
      if headers == [] {
        return Detection(map[], []), FromNothing;
      }
      var found, k := TryTemplates(norm, templates, headers);
      if found.Some? {
        d := ApplyAutoCategorization(infers, found.value);
        return d, FromTemplate;
      }
      if rules.Some? {
        d := ApplyAutoCategorization(infers, rules.value);
        return d, FromRules;
      }
      if reply.None? {
        d := ApplyAutoCategorization(infers, Detection(map h | h in headers :: UNKNOWN, headers));
        return d, FromNothing;
      }
      d := ParseLlmResponse(norm, reply.value.columns, headers);
      if reply.value.confidence >= LEARN_CONFIDENCE && reply.value.schemaName != NO_NAME {
        var columns := Learned(d.mappings, headers);
        if columns != [] {
          templates := Saved(templates, reply.value.schemaName, columns);
        }
      }
      d := ApplyAutoCategorization(infers, d);
      return d, FromModel;
    }
  }

  /**
    The cache works: once a reply has been learned without collisions, the same
    headers are recognised from the store whenever the fraction that the model
    recognised reaches the template's threshold.
   */
  lemma {:induction false} LearnedIsFound(norm: Norm, templates: seq<Template>, reply: LlmReply, headers: seq<string>)
    requires headers != [] && Learnable(norm, reply, headers)
    requires forall h :: h in headers ==> !Shadowed(norm, reply.columns, headers, h)
    ensures
      var d := Parsed(norm, reply.columns, headers);
      var saved := Saved(templates, reply.schemaName, Learned(d.mappings, headers));
      var k := Named(templates, reply.schemaName);
      && k < |saved|
      && Matched(norm, saved[k].columns, headers) == d
      && Confidence(norm, saved[k].columns, headers) == Recognised(d, headers)
      && (Confidence(norm, saved[k].columns, headers) >= saved[k].threshold ==> Qualifies(norm, saved[k], headers))
  {
    var d := Parsed(norm, reply.columns, headers);
    LearnedAgreesExactlyWhen(norm, reply.columns, headers);
    SavedHolds(templates, reply.schemaName, Learned(d.mappings, headers));
    SomethingKnown(norm, reply.columns, headers);
    PositiveFraction(|headers| - |d.unrecognized|, |headers|);
  }

  /** The fraction of the headers that a detection recognises. */
  function Recognised(d: Detection, headers: seq<string>): real
    requires headers != []
  {
    (|headers| - |d.unrecognized|) as real / |headers| as real
  }

  /** The store after a reply has been learned. */
  function AfterLearning(norm: Norm, templates: seq<Template>, reply: LlmReply, headers: seq<string>): seq<Template> {
    Saved(templates, reply.schemaName, Learned(Parsed(norm, reply.columns, headers).mappings, headers))
  }

  /** The reply may be learned, shadows no header and recognises enough of them for the template it is stored in. */
  predicate Cacheable(norm: Norm, templates: seq<Template>, reply: LlmReply, headers: seq<string>) {
    && headers != [] && Learnable(norm, reply, headers)
    && (forall h :: h in headers ==> !Shadowed(norm, reply.columns, headers, h))
    && var stored := AfterLearning(norm, templates, reply, headers)[Named(templates, reply.schemaName)];
    Recognised(Parsed(norm, reply.columns, headers), headers) >= stored.threshold
  }

  lemma {:induction false} CacheableQualifies(norm: Norm, templates: seq<Template>, reply: LlmReply,
      headers: seq<string>)
    requires Cacheable(norm, templates, reply, headers)
    ensures
      var k := Named(templates, reply.schemaName);
      var saved := AfterLearning(norm, templates, reply, headers);
      && k < |saved| && Qualifies(norm, saved[k], headers)
      && Matched(norm, saved[k].columns, headers) == Parsed(norm, reply.columns, headers)
  {
    LearnedIsFound(norm, templates, reply, headers);
  }

  lemma {:induction false} SavedKeepsOthers(templates: seq<Template>, name: string, columns: seq<Column>, j: nat)
    requires j < |Saved(templates, name, columns)| && j != Named(templates, name)
    ensures j < |templates| && Saved(templates, name, columns)[j] == templates[j]
  {
  }

  /** Where no template qualified before, the one just learned is the best one after. */
  lemma {:induction false} LearnedIsBest(norm: Norm, templates: seq<Template>, reply: LlmReply, headers: seq<string>,
      k: nat)
    requires Cacheable(norm, templates, reply, headers)
    requires forall j :: 0 <= j < |templates| ==> !Qualifies(norm, templates[j], headers)
    requires IsBest(norm, AfterLearning(norm, templates, reply, headers), headers, k)
    ensures
      var saved := AfterLearning(norm, templates, reply, headers);
      k < |saved| && Matched(norm, saved[k].columns, headers) == Parsed(norm, reply.columns, headers)
  {
    CacheableQualifies(norm, templates, reply, headers);
    if k != Named(templates, reply.schemaName) {
      SavedKeepsOthers(templates, reply.schemaName, Learned(Parsed(norm, reply.columns, headers).mappings, headers), k);
    }
  }

  /**
    Two uploads of one format that no stored template and no rule recognises: the
    first is answered by the model. If that answer may be learned, shadows no
    header and recognises enough, then the second comes from the store, whatever
    the rules and the model would say by then, and is the same.
   */
  method DetectTwice(registry: Registry, headers: seq<string>, rules: Option<Detection>, reply: Option<LlmReply>,
      laterRules: Option<Detection>, laterReply: Option<LlmReply>)
    returns (first: Detection, firstSource: Source, second: Detection, secondSource: Source)
    modifies registry
    ensures
      (headers != [] && !SomeQualifies(registry.norm, old(registry.templates), headers) && rules.None? && reply.Some?)
      ==>
        && firstSource.FromModel?
        && first == Categorised(registry.infers, Parsed(registry.norm, reply.value.columns, headers))
        && (Cacheable(registry.norm, old(registry.templates), reply.value, headers) ==>
              secondSource.FromTemplate? && second == first)
  {
    ghost var before := registry.templates;
    first, firstSource := registry.DetectColumns(headers, rules, reply);
    ghost var stored := registry.templates;
    second, secondSource := registry.DetectColumns(headers, laterRules, laterReply);
    if firstSource.FromModel? && headers != [] && Cacheable(registry.norm, before, reply.value, headers) {
      CacheableQualifies(registry.norm, before, reply.value, headers);
      assert stored == AfterLearning(registry.norm, before, reply.value, headers);
      ghost var k: nat :| k < |stored| && IsBest(registry.norm, stored, headers, k)
        && second == Categorised(registry.infers, Matched(registry.norm, stored[k].columns, headers));
      LearnedIsBest(registry.norm, before, reply.value, headers, k);
    }
  }

  /** A shadowed header: y is learned under the name x, and takes the header x away from its own name. */
  lemma {:induction false} HeaderShadowed()
    ensures
      var norm: Norm := (s: string) => s;
      var headers := ["x", "y"];
      var columns := [LlmColumn("x", Some("cost")), LlmColumn("y", Some("x"))];
      var d := Parsed(norm, columns, headers);
      && Shadowed(norm, columns, headers, "x")
      && d.mappings["x"] == "cost"
      && Matched(norm, Learned(d.mappings, headers), headers).mappings["x"] == "x"
  {
    var norm: Norm := (s: string) => s;
    var headers := ["x", "y"];
    var columns := [LlmColumn("x", Some("cost")), LlmColumn("y", Some("x"))];
    var d := Parsed(norm, columns, headers);
    assert "x"[0] != "y"[0] && |"x"| != |"cost"| && |"x"| != |UNKNOWN| && "cost"[0] != UNKNOWN[0];
    assert columns[..1] == [columns[0]] && headers[..1] == ["x"] && ["x"][..0] == [];
    assert Entry(norm, columns, "y") == Some("x");
    assert Entry(norm, [columns[0]], "x") == Some("cost");
    assert Entry(norm, columns, "x") == Some("cost");
    assert Canonical(norm, columns, "x") == "cost" && Canonical(norm, columns, "y") == "x";
    assert Shadows(norm, columns, headers, 1, "x");
    assert Learned(d.mappings, ["x"]) == [Column("cost", ["x"])];
    var learned := Learned(d.mappings, headers);
    assert learned == [Column("cost", ["x"]), Column("x", ["y"])];
    assert Claims(norm, learned[1], "x");
    assert LastClaim(norm, learned, "x") == Some("x");
  }

  lemma {:induction false} SavedHolds(templates: seq<Template>, name: string, columns: seq<Column>)
    ensures Named(templates, name) < |Saved(templates, name, columns)|
    ensures Saved(templates, name, columns)[Named(templates, name)].columns == columns
  {
  }

  lemma {:induction false} PositiveFraction(a: nat, b: nat)
    requires a > 0 && b > 0
    ensures a as real / b as real > 0.0
  {
  }

  lemma {:induction false} SomethingKnown(norm: Norm, columns: seq<LlmColumn>, headers: seq<string>)
    ensures |Unrecognized(norm, columns, headers)| <= |headers|
    ensures
      var m := Parsed(norm, columns, headers).mappings;
      && (forall h :: h in headers ==> h in m)
      && (Learned(m, headers) != [] ==> |Unrecognized(norm, columns, headers)| < |headers|)
  {
    LearnedNeedsKnown(norm, columns, Parsed(norm, columns, headers).mappings, headers);
  }

  lemma {:induction false} LearnedNeedsKnown(norm: Norm, columns: seq<LlmColumn>, mappings: map<string, string>,
      headers: seq<string>)
    requires forall h :: h in headers ==> h in mappings && mappings[h] == Canonical(norm, columns, h)
    ensures |Unrecognized(norm, columns, headers)| <= |headers|
    ensures Learned(mappings, headers) != [] ==> |Unrecognized(norm, columns, headers)| < |headers|
  {
    if headers != [] {
      LearnedNeedsKnown(norm, columns, mappings, headers[..|headers| - 1]);
    }
  }
}
