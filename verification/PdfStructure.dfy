/** The structural PDF inspector: where the header is, whether there is an end marker, and whether a
    forbidden name token occurs. A body is handled as its latin-1 text. */
module PdfStructure {
  import opened Results
  import opened Texts

  const SLASH: CodeUnit := 47

  const PDF_MAGIC: Text := [0x25, 0x50, 0x44, 0x46, 0x2d]
  const EOF_MARKER: Text := [0x25, 0x25, 0x45, 0x4F, 0x46]

  const MAX_LEADING_WHITESPACE := 1024
  const EOF_TAIL_BYTES := 2048

  /* ---- names ---- */

  /** The first occurrence at or after `from`, or -1. */
  function NextOccurrence(haystack: Text, token: Text, from: nat): (at: int)
    requires token != []
    ensures at == -1 || (from <= at && OccursAt(haystack, token, at))
    ensures forall i :: from <= i && (at == -1 || i < at) ==> !OccursAt(haystack, token, i)
    decreases |haystack| - from
  {
    if from + |token| > |haystack| then -1
    else if OccursAt(haystack, token, from) then from
    else NextOccurrence(haystack, token, from + 1)
  }

  /** End of input, white space or control, or a delimiter: no further character of the name. */
  predicate EndsName(haystack: Text, i: nat) {
    i >= |haystack|
    || haystack[i] <= 0x20
    || haystack[i] == 0x28 || haystack[i] == 0x29 || haystack[i] == 0x3c || haystack[i] == 0x3e
    || haystack[i] == 0x5b || haystack[i] == 0x5d || haystack[i] == 0x7b || haystack[i] == 0x7d
    || haystack[i] == 0x2f || haystack[i] == 0x25
  }

  predicate IsNameAt(haystack: Text, token: Text, at: nat) {
    OccursAt(haystack, token, at) && EndsName(haystack, at + |token|)
  }

  /** What the search promises to decide. */
  ghost predicate ContainsName(haystack: Text, name: Text) {
    exists at: nat :: IsNameAt(haystack, [SLASH] + name, at)
  }

  /** What the search loop does: after a miss it goes on behind the whole token. */
  function Scan(haystack: Text, token: Text, from: nat): bool
    requires token != []
    decreases |haystack| - from
  {
    if from >= |haystack| then false
    else
      var at := NextOccurrence(haystack, token, from);
      if at == -1 then false
      else EndsName(haystack, at + |token|) || Scan(haystack, token, at + |token|)
  }

  method IncludesPdfName(haystack: Text, name: Text) returns (found: bool)
    ensures found == Scan(haystack, [SLASH] + name, 0)
    ensures SLASH !in name ==> (found <==> ContainsName(haystack, name))
  {
    var token := [SLASH] + name;
    if SLASH !in name {
      ScanIsExact(haystack, name, 0);
      assert NameFrom(haystack, token, 0) <==> ContainsName(haystack, name);
    }
    var from := 0;
    while from < |haystack|
      invariant Scan(haystack, token, 0) == Scan(haystack, token, from)
      decreases |haystack| - from
    {
      var at := NextOccurrence(haystack, token, from);
      if at == -1 {
        return false;
      }
      if EndsName(haystack, at + |token|) {
        return true;
      }
      from := at + |token|;
    }
    return false;
  }

  ghost predicate NameFrom(haystack: Text, token: Text, from: nat) {
    exists at: nat :: from <= at && IsNameAt(haystack, token, at)
  }

  /** Two occurrences of a token with its only slash in front never overlap, so skipping one loses none. */
  lemma {:induction false} ScanIsExact(haystack: Text, name: Text, from: nat)
    requires SLASH !in name
    ensures Scan(haystack, [SLASH] + name, from) <==> NameFrom(haystack, [SLASH] + name, from)
    decreases |haystack| - from
  {
    var token := [SLASH] + name;
    if from < |haystack| {
      var first := NextOccurrence(haystack, token, from);
      if first >= 0 && EndsName(haystack, first + |token|) {
        assert IsNameAt(haystack, token, first);
      } else if first >= 0 {
        ScanIsExact(haystack, name, first + |token|);
        MissLosesNothing(haystack, name, from);
      }
    }
  }

  lemma MissLosesNothing(haystack: Text, name: Text, from: nat)
    requires SLASH !in name
    requires var first := NextOccurrence(haystack, [SLASH] + name, from); first >= 0 && !EndsName(haystack, first + 1 + |name|)
    ensures NameFrom(haystack, [SLASH] + name, from)
            <==> NameFrom(haystack, [SLASH] + name, NextOccurrence(haystack, [SLASH] + name, from) + 1 + |name|)
  {
    var token := [SLASH] + name;
    var first := NextOccurrence(haystack, token, from);
    forall at: nat | from <= at && IsNameAt(haystack, token, at)
      ensures first + |token| <= at
    {
      if at > first {
        NoOverlap(haystack, name, first, at);
      }
    }
  }

  lemma NoOverlap(haystack: Text, name: Text, first: nat, at: nat)
    requires SLASH !in name && first < at
    requires OccursAt(haystack, [SLASH] + name, first) && OccursAt(haystack, [SLASH] + name, at)
    ensures first + 1 + |name| <= at
  {
    var token := [SLASH] + name;
    assert haystack[at] == haystack[at..at + |token|][0] == SLASH;
    forall k | first < k < first + |token|
      ensures haystack[k] != SLASH
    {
      assert haystack[k] == haystack[first..first + |token|][k - first] == name[k - first - 1];
      assert name[k - first - 1] in name;
    }
  }

  /** For a name with a slash in it skipping may lose a match: looking for the name `a/` in `/a/a/` and a blank. */
  lemma SlashesMayHideAName()
    ensures var haystack: Text, name: Text := [47, 97, 47, 97, 47, 32], [97, 47];
            ContainsName(haystack, name) && !Scan(haystack, [SLASH] + name, 0)
  {
    var haystack: Text, name: Text := [47, 97, 47, 97, 47, 32], [97, 47];
    var token := [SLASH] + name;
    assert haystack[0..3] == token && haystack[2..5] == token;
    assert IsNameAt(haystack, token, 2);
    assert NextOccurrence(haystack, token, 0) == 0;
    assert haystack[3..6] != token by {
      assert haystack[3..6][0] == 97;
    }
    assert NextOccurrence(haystack, token, 3) == -1;
  }

  /* ---- header and end marker ---- */

  predicate IsPdfWhitespace(byte: CodeUnit) {
    byte == 0x00 || byte == 0x09 || byte == 0x0a || byte == 0x0c || byte == 0x0d || byte == 0x20
  }

  /** The header stands at `offset`, after nothing but white space and not too much of it. */
  predicate HeaderAt(body: Text, offset: nat) {
    && OccursAt(body, PDF_MAGIC, offset)
    && offset <= MAX_LEADING_WHITESPACE
    && (forall i :: 0 <= i < offset ==> IsPdfWhitespace(body[i]))
  }

  method MatchesMagicAt(body: Text, offset: nat) returns (matches: bool)
    ensures matches <==> OccursAt(body, PDF_MAGIC, offset)
  {
    if offset + |PDF_MAGIC| > |body| {
      return false;
    }
    for index := 0 to |PDF_MAGIC|
      invariant forall k :: 0 <= k < index ==> body[offset + k] == PDF_MAGIC[k]
    {
      if body[offset + index] != PDF_MAGIC[index] {
        assert body[offset..offset + |PDF_MAGIC|][index] != PDF_MAGIC[index];
        return false;
      }
    }
    assert body[offset..offset + |PDF_MAGIC|] == PDF_MAGIC;
    return true;
  }

  /** Finds the header exactly when there is one, and there is at most one place for it. */
  method FindPdfMagicOffset(body: Text) returns (offset: Option<nat>)
    ensures forall i: nat :: offset == Some(i) <==> HeaderAt(body, i)
  {
    HeaderIsNoSpace(body);
    var index := 0;
    while index < |body| && index < MAX_LEADING_WHITESPACE
      invariant index <= |body| && index <= MAX_LEADING_WHITESPACE
      invariant forall i :: 0 <= i < index ==> IsPdfWhitespace(body[i])
    {
      var matches := MatchesMagicAt(body, index);
      if matches {
        return Some(index);
      }
      if !IsPdfWhitespace(body[index]) {
        return None;
      }
      index := index + 1;
    }
    var last := MatchesMagicAt(body, index);
    return if last then Some(index) else None;
  }

  lemma HeaderIsNoSpace(body: Text)
    ensures forall i: nat :: OccursAt(body, PDF_MAGIC, i) ==> i < |body| && !IsPdfWhitespace(body[i])
  {
    forall i: nat | OccursAt(body, PDF_MAGIC, i)
      ensures i < |body| && !IsPdfWhitespace(body[i])
    {
      assert body[i] == body[i..i + |PDF_MAGIC|][0];
    }
  }

  function Tail(body: Text): Text {
    body[if |body| > EOF_TAIL_BYTES then |body| - EOF_TAIL_BYTES else 0..]
  }

  /* ---- the inspection ---- */

  /** One row of the table of forbidden names: tokens, and spellings looked for as they are. */
  datatype Check = Check(reason: Reason, names: seq<Text>, spellings: seq<Text>)

  datatype Reason =
    | NotPdf
    | MissingEof
    | JavaScript
    | OpenAction
    | AdditionalActions
    | Launch
    | EmbeddedFile
    | RichMedia
    | Xfa
    | SubmitForm
    | ImportData
    | GoToRemote
    | Encrypt

  datatype Verdict = Accepted | Rejected(reason: Reason)

  const CHECKS: seq<Check> := [
    Check(JavaScript, [Ascii("JavaScript"), Ascii("JS")],
          [Ascii("/#4A#61#76#61#53#63#72#69#70#74"), Ascii("/#4a#61#76#61#53#63#72#69#70#74")]),
    Check(OpenAction, [Ascii("OpenAction")], []),
    Check(AdditionalActions, [Ascii("AA")], []),
    Check(Launch, [Ascii("Launch")], []),
    Check(EmbeddedFile, [Ascii("EmbeddedFile"), Ascii("EmbeddedFiles")], []),
    Check(RichMedia, [Ascii("RichMedia")], []),
    Check(Xfa, [Ascii("XFA")], []),
    Check(SubmitForm, [Ascii("SubmitForm")], []),
    Check(ImportData, [Ascii("ImportData")], []),
    Check(GoToRemote, [Ascii("GoToR")], []),
    Check(Encrypt, [Ascii("Encrypt")], [])]

  /** No name in the table has a slash in it. */
  ghost predicate PlainNames(checks: seq<Check>) {
    forall c, n :: 0 <= c < |checks| && 0 <= n < |checks[c].names| ==> SLASH !in checks[c].names[n]
  }

  /** The table of the source has only such names, so every row of it is decided exactly. */
  lemma TheTableIsPlain()
    ensures PlainNames(CHECKS)
  {
    forall c, n | 0 <= c < |CHECKS| && 0 <= n < |CHECKS[c].names|
      ensures SLASH !in CHECKS[c].names[n]
    {
      NoSlashInTable(c);
    }
  }

  lemma NoSlashInTable(c: nat)
    requires c < |CHECKS|
    ensures forall n :: 0 <= n < |CHECKS[c].names| ==> SLASH !in CHECKS[c].names[n]
  {
  }

  /** A row of the table applies to a text. */
  ghost predicate Matches(text: Text, check: Check) {
    || (exists n :: 0 <= n < |check.names| && ContainsName(text, check.names[n]))
    || (exists k :: 0 <= k < |check.spellings| && Includes(text, check.spellings[k]))
  }

  /** Accepted exactly when the type and header are right, the end marker is near the end and no row of the
      table applies; otherwise the reason is the first one that does. */
  ghost predicate IsVerdict(pdfType: bool, body: Text, checks: seq<Check>, verdict: Verdict) {
    if !pdfType || !(exists i: nat :: HeaderAt(body, i)) then verdict == Rejected(NotPdf)
    else if !Includes(Tail(body), EOF_MARKER) then verdict == Rejected(MissingEof)
    else
      || (verdict == Accepted && forall c :: 0 <= c < |checks| ==> !Matches(body, checks[c]))
      || (exists c :: 0 <= c < |checks| && Matches(body, checks[c]) && verdict == Rejected(checks[c].reason)
                      && forall b :: 0 <= b < c ==> !Matches(body, checks[b]))
  }

  /** The inspection with the table of the source. */
  method InspectPdfStructure(pdfType: bool, body: Text) returns (verdict: Verdict)
    ensures IsVerdict(pdfType, body, CHECKS, verdict)
  {
    TheTableIsPlain();
    verdict := InspectWith(pdfType, body, CHECKS);
  }

  method InspectWith(pdfType: bool, body: Text, checks: seq<Check>) returns (verdict: Verdict)
    requires PlainNames(checks)
    ensures IsVerdict(pdfType, body, checks, verdict)
  {
    if !pdfType {
      return Rejected(NotPdf);
    }
    var offset := FindPdfMagicOffset(body);
    if offset == None {
      return Rejected(NotPdf);
    }
    assert HeaderAt(body, offset.value);
    if !Includes(Tail(body), EOF_MARKER) {
      return Rejected(MissingEof);
    }
    for c := 0 to |checks|
      invariant forall b :: 0 <= b < c ==> !Matches(body, checks[b])
    {
      var matches := CheckMatches(body, checks[c]);
      if matches {
        return Rejected(checks[c].reason);
      }
    }
    return Accepted;
  }

  method CheckMatches(text: Text, check: Check) returns (matches: bool)
    requires forall n :: 0 <= n < |check.names| ==> SLASH !in check.names[n]
    ensures matches <==> Matches(text, check)
  {
    for n := 0 to |check.names|
      invariant forall m :: 0 <= m < n ==> !ContainsName(text, check.names[m])
    {
      var found := IncludesPdfName(text, check.names[n]);
      if found {
        return true;
      }
    }
    for k := 0 to |check.spellings|
      invariant forall m :: 0 <= m < k ==> !Includes(text, check.spellings[m])
    {
      if Includes(text, check.spellings[k]) {
        return true;
      }
    }
    return false;
  }

  /* ---- what never passes ---- */

  /** A name ends at the end of the input, at a blank or control, or at one of the ten delimiters. */
  lemma NameEnds(haystack: Text, i: nat)
    ensures EndsName(haystack, i) <==> i >= |haystack| || haystack[i] <= 32 || haystack[i] in Ascii("()<>[]{}/%")
  {
    var delimiters := Ascii("()<>[]{}/%");
    assert delimiters == [40, 41, 60, 62, 91, 93, 123, 125, 47, 37];
  }

  lemma WhiteSpaceBytes(byte: CodeUnit)
    ensures IsPdfWhitespace(byte) <==> byte == 0 || byte in Ascii("\t\n\r ") || byte == 12
  {
    assert Ascii("\t\n\r ") == [9, 10, 13, 32];
  }

  /** The header is `%PDF-`, behind at most 1024 bytes of white space, and the marker `%%EOF` is looked for in
      the last 2048. */
  lemma HeaderAndMarker(body: Text, offset: nat)
    ensures HeaderAt(body, offset)
            <==> OccursAt(body, Ascii("%PDF-"), offset) && offset <= 1024 && forall i :: 0 <= i < offset ==> IsPdfWhitespace(body[i])
    ensures Includes(Tail(body), EOF_MARKER)
            <==> exists i :: 0 <= i && |body| - 2048 <= i && i + 5 <= |body| && OccursAt(body, Ascii("%%EOF"), i)
  {
    assert Ascii("%PDF-") == PDF_MAGIC && Ascii("%%EOF") == EOF_MARKER;
    MarkerInTail(body);
  }

  lemma MarkerInTail(body: Text)
    ensures Includes(Tail(body), EOF_MARKER)
            <==> exists i :: 0 <= i && |body| - 2048 <= i && i + 5 <= |body| && OccursAt(body, EOF_MARKER, i)
  {
    var start := if |body| > 2048 then |body| - 2048 else 0;
    var tail := Tail(body);
    forall i: nat | start <= i && i + 5 <= |body|
      ensures OccursAt(body, EOF_MARKER, i) <==> OccursAt(tail, EOF_MARKER, i - start)
    {
      assert body[i..i + 5] == tail[i - start..i - start + 5];
    }
    if Includes(tail, EOF_MARKER) {
      var k :| 0 <= k <= |tail| && OccursAt(tail, EOF_MARKER, k);
      assert OccursAt(body, EOF_MARKER, k + start);
    }
    if i :| 0 <= i && |body| - 2048 <= i && i + 5 <= |body| && OccursAt(body, EOF_MARKER, i) {
      assert OccursAt(tail, EOF_MARKER, i - start);
    }
  }

  /** The name, behind a slash and ended by anything that ends a name. */
  ghost predicate NameStandsAt(body: Text, name: Text, at: nat) {
    && at < |body| && body[at] == 47 && OccursAt(body, name, at + 1)
    && var end := at + 1 + |name|; end == |body| || body[end] <= 32 || body[end] in Ascii("()<>[]{}/%")
  }

  lemma StandsIsContained(body: Text, name: Text)
    ensures ContainsName(body, name) <==> exists at: nat :: NameStandsAt(body, name, at)
  {
    if ContainsName(body, name) {
      var at: nat :| IsNameAt(body, [SLASH] + name, at);
      StandsIsNameAt(body, name, at);
    }
    if at: nat :| NameStandsAt(body, name, at) {
      StandsIsNameAt(body, name, at);
    }
  }

  lemma StandsIsNameAt(body: Text, name: Text, at: nat)
    ensures IsNameAt(body, [SLASH] + name, at) <==> NameStandsAt(body, name, at)
  {
    NameEnds(body, at + 1 + |name|);
    var end := at + 1 + |name|;
    if end <= |body| {
      assert body[at..end] == [body[at]] + body[at + 1..end];
    }
  }

  /** Nothing in the body is forbidden by any row: no name in it, and no spelling. */
  ghost predicate HasNothingForbidden(body: Text, checks: seq<Check>) {
    && (forall c, n, at: nat :: 0 <= c < |checks| && 0 <= n < |checks[c].names| ==> !NameStandsAt(body, checks[c].names[n], at))
    && (forall c, k, at: nat :: 0 <= c < |checks| && 0 <= k < |checks[c].spellings| ==> !OccursAt(body, checks[c].spellings[k], at))
  }

  ghost predicate HasHeader(body: Text, i: nat) {
    OccursAt(body, Ascii("%PDF-"), i) && i <= 1024 && forall k :: 0 <= k < i ==> IsPdfWhitespace(body[k])
  }

  /** A body is accepted exactly when it has the header and the marker where they belong, and nothing that
      is forbidden. */
  lemma AcceptedExactly(body: Text, verdict: Verdict)
    requires IsVerdict(true, body, CHECKS, verdict)
    ensures verdict == Accepted
            <==> && (exists i: nat :: HasHeader(body, i))
                 && (exists i :: 0 <= i && |body| - 2048 <= i && i + 5 <= |body| && OccursAt(body, Ascii("%%EOF"), i))
                 && HasNothingForbidden(body, CHECKS)
  {
    NothingMatches(body, CHECKS);
    forall i: nat
      ensures HeaderAt(body, i) <==> HasHeader(body, i)
    {
      HeaderAndMarker(body, i);
    }
    HeaderAndMarker(body, 0);
  }

  lemma NothingMatches(body: Text, checks: seq<Check>)
    ensures HasNothingForbidden(body, checks) <==> forall c :: 0 <= c < |checks| ==> !Matches(body, checks[c])
  {
    forall name
      ensures ContainsName(body, name) <==> exists at: nat :: NameStandsAt(body, name, at)
    {
      StandsIsContained(body, name);
    }
  }

  /** A body with any of the forbidden names, ended by anything that ends a name, is never accepted. */
  lemma ForbiddenNamesNeverPass(body: Text, verdict: Verdict, c: nat, n: nat, at: nat)
    requires IsVerdict(true, body, CHECKS, verdict) && c < |CHECKS| && n < |CHECKS[c].names|
    requires at < |body| && body[at] == 47 && OccursAt(body, CHECKS[c].names[n], at + 1)
    requires var end := at + 1 + |CHECKS[c].names[n]|; end == |body| || body[end] <= 32 || body[end] in Ascii("()<>[]{}/%")
    ensures verdict != Accepted
  {
    var name := CHECKS[c].names[n];
    NameEnds(body, at + 1 + |name|);
    assert body[at..at + 1 + |name|] == [SLASH] + name;
    NamesNeverPass(body, CHECKS, verdict, c, n, at);
  }

  lemma NamesNeverPass(body: Text, checks: seq<Check>, verdict: Verdict, c: nat, n: nat, at: nat)
    requires IsVerdict(true, body, checks, verdict) && c < |checks| && n < |checks[c].names|
    requires IsNameAt(body, [SLASH] + checks[c].names[n], at)
    ensures verdict != Accepted
  {
    assert ContainsName(body, checks[c].names[n]);
    assert Matches(body, checks[c]);
  }

  /** In particular scripts: `/JS` before a string, a dictionary, another name, a blank or the end. */
  lemma ScriptsNeverPass(body: Text, verdict: Verdict, at: nat)
    requires IsVerdict(true, body, CHECKS, verdict) && OccursAt(body, Ascii("/JS"), at)
    requires at + 3 == |body| || body[at + 3] in Ascii("(</ ")
    ensures verdict != Accepted
  {
    var name := CHECKS[0].names[1];
    assert name == Ascii("JS") && Ascii("/JS") == [SLASH] + name;
    assert body[at..at + 3] == [SLASH] + name;
    assert body[at] == body[at..at + 3][0] == 47;
    assert body[at + 1..at + 3] == name;
    assert Ascii("(</ ") == [40, 60, 47, 32] && Ascii("()<>[]{}/%") == [40, 41, 60, 62, 91, 93, 123, 125, 47, 37];
    ForbiddenNamesNeverPass(body, verdict, 0, 1, at);
  }
}
