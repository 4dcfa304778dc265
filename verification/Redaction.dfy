/** Redaction of secrets in command output (services/cloud_sandbox_executor.py). */
module Redaction {
  import opened Entities
  import opened Rows

  const MARK: string := "[redacted]"
  const WORD: string := "redacted"

  // ---- occurrences ----

  predicate At(t: string, u: string, i: int) {
    0 <= i && i + |u| <= |t| && t[i..i + |u|] == u
  }

  ghost predicate Occurs(t: string, u: string) {
    exists i :: At(t, u, i)
  }

  /** The leftmost occurrence, or -1. */
  function Find(t: string, s: string): (i: int)
    ensures i >= 0 ==> At(t, s, i) && forall j :: 0 <= j < i ==> !At(t, s, j)
    ensures i < 0 ==> i == -1 && !Occurs(t, s)
    decreases |t|
  {
    if |t| < |s| then -1
    else if t[..|s|] == s then 0
    else if t == [] then -1
    else
      FindShifts(t, s);
      var i := Find(t[1..], s);
      if i < 0 then -1 else i + 1
  }

  lemma SliceOfDrop(t: string, from: nat, i: nat, j: nat)
    requires from <= i <= j <= |t|
    ensures t[i..j] == t[from..][i - from..j - from]
  {
  }

  lemma FindShifts(t: string, s: string)
    requires t != [] && |s| <= |t| && t[..|s|] != s
    ensures forall i :: At(t, s, i) <==> i > 0 && At(t[1..], s, i - 1)
  {
    forall i: int ensures At(t, s, i) <==> i > 0 && At(t[1..], s, i - 1) {
      if i > 0 && i + |s| <= |t| {
        SliceOfDrop(t, 1, i, i + |s|);
      } else if i == 0 {
        assert t[0..|s|] == t[..|s|];
      }
    }
  }

  // ---- str.replace ----

  /** Leftmost, non-overlapping replacement. */
  function Replace(t: string, s: string): string
    requires |s| > 0
    decreases |t|
  {
    var i := Find(t, s);
    if i < 0 then t else t[..i] + MARK + Replace(t[i + |s|..], s)
  }

  predicate BracketFree(u: string) {
    forall k :: 0 <= k < |u| ==> u[k] != '[' && u[k] != ']'
  }

  // ---- texts and the mark ----

  /** `u`, laid so that it begins `d` characters after the mark begins, agrees with the mark
      wherever the two lie over each other. */
  predicate Agrees(u: string, d: int) {
    forall j :: 0 <= j < |u| && 0 <= d + j < |MARK| ==> u[j] == MARK[d + j]
  }

  /** `u` can lie over an end of the mark: it contains the mark, or begins with an end of it, or
      ends with a beginning of it. */
  predicate Straddles(u: string) {
    exists d :: -|u| < d < |MARK| && !(0 <= d && d + |u| <= |MARK|) && Agrees(u, d)
  }

  /** Replacing a secret that does not occur does nothing; replacing one that does leaves a
      mark behind. */
  lemma ReplaceShows(t: string, s: string)
    requires |s| > 0
    ensures !Occurs(t, s) ==> Replace(t, s) == t
    ensures Occurs(t, s) ==> Occurs(Replace(t, s), MARK)
  {
    var i := Find(t, s);
    if i >= 0 {
      var rest := Replace(t[i + |s|..], s);
      assert At(t[..i] + MARK + rest, MARK, i);
    }
  }

  lemma SliceOfSlice(t: string, from: nat, to: nat, i: nat, j: nat)
    requires from <= to <= |t| && i <= j <= to - from
    ensures t[from..to][i..j] == t[from + i..from + j]
  {
    var part := t[from..to];
    assert |part[i..j]| == |t[from + i..from + j]|;
    forall k | 0 <= k < j - i ensures part[i..j][k] == t[from + i..from + j][k] {
      assert part[i..j][k] == part[i + k];
    }
  }

  lemma OccursInPart(t: string, u: string, from: nat, to: nat)
    requires from <= to <= |t| && Occurs(t[from..to], u)
    ensures Occurs(t, u)
  {
    var i :| At(t[from..to], u, i);
    SliceOfSlice(t, from, to, i, i + |u|);
    assert t[from + i..from + i + |u|] == u;
    assert At(t, u, from + i);
  }

  /** A text that straddles no mark and occurs around one occurs before it, in it, or after. */
  lemma OccursAroundMark(a: string, b: string, u: string)
    requires |u| > 0 && !Straddles(u) && Occurs(a + MARK + b, u)
    ensures Occurs(a, u) || Occurs(MARK, u) || Occurs(b, u)
  {
    var t := a + MARK + b;
    var i :| At(t, u, i);
    var d := i - |a|;
    if d + |u| <= 0 {
      assert a[i..i + |u|] == t[i..i + |u|];
      assert At(a, u, i);
    } else if d >= |MARK| {
      var k := d - |MARK|;
      assert b[k..k + |u|] == t[i..i + |u|];
      assert At(b, u, k);
    } else {
      LiesOver(a, b, u, i);
      assert 0 <= d && d + |u| <= |MARK|;
      assert MARK[d..d + |u|] == u;
      assert At(MARK, u, d);
    }
  }

  lemma LiesOver(a: string, b: string, u: string, i: int)
    requires At(a + MARK + b, u, i)
    ensures Agrees(u, i - |a|)
  {
    var t := a + MARK + b;
    forall j | 0 <= j < |u| && 0 <= i - |a| + j < |MARK| ensures u[j] == MARK[i - |a| + j] {
      assert u[j] == t[i..i + |u|][j] == t[i + j];
    }
  }

  /** A replacement creates no occurrence of a text that neither lies in the mark nor straddles
      it, and of the replaced text itself none is left. */
  lemma {:induction false} ReplaceCreatesNothing(t: string, s: string, u: string)
    requires |s| > 0 && |u| > 0 && !Straddles(u) && !Occurs(MARK, u)
    requires Occurs(Replace(t, s), u)
    ensures u != s && Occurs(t, u)
    decreases |t|
  {
    var i := Find(t, s);
    if i >= 0 {
      var rest := t[i + |s|..];
      OccursAroundMark(t[..i], Replace(rest, s), u);
      if Occurs(t[..i], u) {
        PrefixHasNone(t, s, i);
        OccursInPart(t, u, 0, i);
      } else {
        ReplaceCreatesNothing(rest, s, u);
        assert t[i + |s|..|t|] == rest;
        OccursInPart(t, u, i + |s|, |t|);
      }
    }
  }

  lemma ReplaceKeepsClean(t: string, s: string, u: string)
    requires |s| > 0 && |u| > 0 && !Straddles(u) && !Occurs(MARK, u)
    requires u == s || !Occurs(t, u)
    ensures !Occurs(Replace(t, s), u)
  {
    if Occurs(Replace(t, s), u) {
      ReplaceCreatesNothing(t, s, u);
    }
  }

  lemma PrefixHasNone(t: string, s: string, i: nat)
    requires i == Find(t, s)
    ensures |s| > 0 ==> !Occurs(t[..i], s)
  {
    if j :| At(t[..i], s, j) && |s| > 0 {
      assert t[..i][j..j + |s|] == t[j..j + |s|];
      assert At(t, s, j);
    }
  }

  // ---- redact_secrets ----

  predicate NoEmpty(secrets: seq<string>) {
    forall s <- secrets :: |s| > 0
  }

  function InsertByLength(secret: string, secrets: seq<string>): (r: seq<string>)
    ensures |r| == |secrets| + 1
  {
    if secrets == [] then [secret]
    else if |secret| >= |secrets[0]| then [secret] + secrets
    else [secrets[0]] + InsertByLength(secret, secrets[1..])
  }

  /** `sorted(..., key=len, reverse=True)`: stable, longest first. */
  function LongestFirst(secrets: seq<string>): seq<string> {
    if secrets == [] then [] else InsertByLength(secrets[0], LongestFirst(secrets[1..]))
  }

  function NonEmpty(secrets: seq<string>): seq<string> {
    if secrets == [] then []
    else (if |secrets[0]| > 0 then [secrets[0]] else []) + NonEmpty(secrets[1..])
  }

  ghost predicate Falling(secrets: seq<string>) {
    forall i, j :: 0 <= i < j < |secrets| ==> |secrets[i]| >= |secrets[j]|
  }

  lemma {:induction false} InsertKeepsAll(secret: string, secrets: seq<string>)
    ensures forall s :: s in InsertByLength(secret, secrets) <==> s in secrets || s == secret
    decreases |secrets|
  {
    if secrets != [] && |secret| < |secrets[0]| {
      InsertKeepsAll(secret, secrets[1..]);
    }
  }

  lemma {:induction false} InsertKeepsFalling(secret: string, secrets: seq<string>)
    requires Falling(secrets)
    ensures Falling(InsertByLength(secret, secrets))
    decreases |secrets|
  {
    if secrets != [] && |secret| < |secrets[0]| {
      InsertKeepsFalling(secret, secrets[1..]);
      InsertKeepsAll(secret, secrets[1..]);
      var r := InsertByLength(secret, secrets[1..]);
      forall i | 0 <= i < |r| ensures |r[i]| <= |secrets[0]| {
        assert r[i] in r;
      }
    }
  }

  lemma {:induction false} LongestFirstSorts(secrets: seq<string>)
    ensures Falling(LongestFirst(secrets))
    ensures forall s :: s in LongestFirst(secrets) <==> s in secrets
    decreases |secrets|
  {
    if secrets != [] {
      LongestFirstSorts(secrets[1..]);
      InsertKeepsFalling(secrets[0], LongestFirst(secrets[1..]));
      InsertKeepsAll(secrets[0], LongestFirst(secrets[1..]));
    }
  }

  lemma {:induction false} NonEmptyMeans(secrets: seq<string>)
    ensures forall s :: s in NonEmpty(secrets) <==> s in secrets && |s| > 0
    decreases |secrets|
  {
    if secrets != [] {
      NonEmptyMeans(secrets[1..]);
    }
  }

  function Ordered(secrets: seq<string>): seq<string> { LongestFirst(NonEmpty(secrets)) }

  lemma OrderedMeans(secrets: seq<string>)
    ensures Falling(Ordered(secrets))
    ensures forall s :: s in Ordered(secrets) <==> s in secrets && |s| > 0
  {
    NonEmptyMeans(secrets);
    LongestFirstSorts(NonEmpty(secrets));
  }

  function ReplaceAll(t: string, secrets: seq<string>): string
    requires NoEmpty(secrets)
  {
    if secrets == [] then t
    else Replace(ReplaceAll(t, secrets[..|secrets| - 1]), secrets[|secrets| - 1])
  }

  function Redact(t: string, secrets: seq<string>): string {
    OrderedMeans(secrets);
    ReplaceAll(t, Ordered(secrets))
  }

  method RedactSecrets(text: string, secrets: seq<string>) returns (redacted: string)
    ensures redacted == Redact(text, secrets)
  {
    OrderedMeans(secrets);
    var ordered := Ordered(secrets);
    redacted := text;
    for k := 0 to |ordered|
      invariant redacted == ReplaceAll(text, ordered[..k])
    {
      TakeOfTake(ordered, k);
      redacted := Replace(redacted, ordered[k]);
    }
    TakeAll(ordered);
  }

  // ---- completeness ----

  ghost predicate Clean(t: string, secrets: seq<string>) {
    forall s <- secrets :: |s| > 0 ==> !Occurs(t, s)
  }

  /** No secret is part of the mark. */
  ghost predicate Harmless(secrets: seq<string>) {
    forall s <- secrets :: |s| > 0 ==> !Occurs(MARK, s)
  }

  /** No secret contains the mark or overlaps an end of it. */
  predicate NoneStraddles(secrets: seq<string>) {
    forall s <- secrets :: |s| > 0 ==> !Straddles(s)
  }

  predicate AllBracketFree(secrets: seq<string>) {
    forall s <- secrets :: BracketFree(s)
  }

  lemma {:induction false} ReplaceAllCleans(t: string, secrets: seq<string>)
    requires NoEmpty(secrets)
    requires NoneStraddles(secrets) && Harmless(secrets)
    ensures Clean(ReplaceAll(t, secrets), secrets)
    decreases |secrets|
  {
    if secrets != [] {
      var init, last := secrets[..|secrets| - 1], secrets[|secrets| - 1];
      ReplaceAllCleans(t, init);
      var before := ReplaceAll(t, init);
      forall s <- secrets ensures !Occurs(Replace(before, last), s) {
        assert s in init || s == last;
        ReplaceKeepsClean(before, last, s);
      }
    }
  }

  lemma {:induction false} ReplaceAllOfClean(t: string, secrets: seq<string>)
    requires NoEmpty(secrets) && Clean(t, secrets)
    ensures ReplaceAll(t, secrets) == t
    decreases |secrets|
  {
    if secrets != [] {
      ReplaceAllOfClean(t, secrets[..|secrets| - 1]);
      ReplaceShows(t, secrets[|secrets| - 1]);
    }
  }

  lemma {:induction false} ReplaceAllMarks(t: string, secrets: seq<string>)
    requires NoEmpty(secrets) && !Clean(t, secrets)
    ensures Occurs(ReplaceAll(t, secrets), MARK)
    decreases |secrets|
  {
    var init, last := secrets[..|secrets| - 1], secrets[|secrets| - 1];
    var before := ReplaceAll(t, init);
    ReplaceShows(before, last);
    if !Clean(t, init) {
      ReplaceAllMarks(t, init);
    } else {
      ReplaceAllOfClean(t, init);
      assert forall s :: s in secrets ==> s in init || s == last;
    }
  }

  lemma OccursInside(t: string, m: string, u: string)
    requires Occurs(t, m) && Occurs(m, u)
    ensures Occurs(t, u)
  {
    var i :| At(t, m, i);
    OccursInPart(t, u, i, i + |m|);
  }

  /** Redaction completeness. For secrets that neither contain the mark nor overlap an end of
      it, the output contains none of them exactly when none occurs in the input, or none is
      part of the mark. */
  lemma RedactionIsComplete(t: string, secrets: seq<string>)
    requires NoneStraddles(secrets)
    ensures Clean(Redact(t, secrets), secrets) <==> Clean(t, secrets) || Harmless(secrets)
  {
    var ordered := Ordered(secrets);
    OrderedMeans(secrets);
    assert Clean(t, secrets) <==> Clean(t, ordered);
    if Clean(t, secrets) {
      ReplaceAllOfClean(t, ordered);
    } else if Harmless(secrets) {
      ReplaceAllCleans(t, ordered);
    } else {
      ReplaceAllMarks(t, ordered);
      var s :| s in secrets && |s| > 0 && Occurs(MARK, s);
      OccursInside(Redact(t, secrets), MARK, s);
    }
  }

  lemma DisagreesAt(u: string, d: int, j: nat)
    requires j < |u| && 0 <= d + j < |MARK| && u[j] != MARK[d + j]
    ensures !Agrees(u, d)
  {
  }

  lemma BracketFreeNeverStraddles(u: string)
    requires BracketFree(u) && |u| > 0
    ensures !Straddles(u)
  {
    hide Agrees;
    forall d | -|u| < d < |MARK| && !(0 <= d && d + |u| <= |MARK|) ensures !Agrees(u, d) {
      DisagreesAt(u, d, if d < 0 then -d else 9 - d);
    }
  }

  lemma InMarkIsInWord(u: string, i: int)
    requires BracketFree(u) && |u| > 0 && At(MARK, u, i)
    ensures At(WORD, u, i - 1)
  {
    var part := MARK[i..i + |u|];
    assert part[0] == MARK[i] && part[|u| - 1] == MARK[i + |u| - 1];
    assert i > 0 && i + |u| < 10;
    assert MARK[1..9] == WORD;
    SliceOfSlice(MARK, 1, 9, i - 1, i - 1 + |u|);
  }

  lemma InWordIsInMark(u: string, i: int)
    requires At(WORD, u, i)
    ensures At(MARK, u, i + 1)
  {
    assert MARK[1..9] == WORD;
    SliceOfSlice(MARK, 1, 9, i, i + |u|);
  }

  /** A text without brackets never straddles the mark, and is part of it exactly when it is
      part of its word. */
  lemma BracketFreeIsSafe(u: string)
    requires BracketFree(u) && |u| > 0
    ensures !Straddles(u)
    ensures Occurs(MARK, u) <==> Occurs(WORD, u)
  {
    hide At, Straddles;
    BracketFreeNeverStraddles(u);
    if i :| At(MARK, u, i) {
      InMarkIsInWord(u, i);
    }
    if i :| At(WORD, u, i) {
      InWordIsInMark(u, i);
    }
  }

  /** A text without secrets is never changed; a text that redaction has cleaned is not changed
      by redacting it again, whatever the secrets. */
  lemma RedactionIsIdempotent(t: string, secrets: seq<string>)
    ensures Clean(t, secrets) ==> Redact(t, secrets) == t
    ensures Clean(Redact(t, secrets), secrets) ==> Redact(Redact(t, secrets), secrets) == Redact(t, secrets)
  {
    var ordered := Ordered(secrets);
    OrderedMeans(secrets);
    if Clean(t, secrets) {
      ReplaceAllOfClean(t, ordered);
    }
    if Clean(Redact(t, secrets), secrets) {
      ReplaceAllOfClean(Redact(t, secrets), ordered);
    }
  }

  // ---- secrets without brackets ----

  function Opens(t: string): nat {
    if t == [] then 0 else Opens(t[1..]) + if t[0] == '[' then 1 else 0
  }

  lemma {:induction false} OpensAdd(a: string, b: string)
    ensures Opens(a + b) == Opens(a) + Opens(b)
    decreases |a|
  {
    if a == [] {
      assert a + b == b;
    } else {
      assert (a + b)[1..] == a[1..] + b;
      OpensAdd(a[1..], b);
    }
  }

  lemma {:induction false} NoBracketNoOpen(u: string)
    requires BracketFree(u)
    ensures Opens(u) == 0
    decreases |u|
  {
    if u != [] {
      NoBracketNoOpen(u[1..]);
    }
  }

  /** Every replacement of a secret without brackets adds a bracket. */
  lemma {:induction false} ReplaceAddsBrackets(t: string, s: string)
    requires |s| > 0 && BracketFree(s)
    ensures Opens(Replace(t, s)) >= Opens(t)
    ensures Occurs(t, s) ==> Opens(Replace(t, s)) > Opens(t)
    decreases |t|
  {
    hide Opens;
    var i := Find(t, s);
    if i >= 0 {
      var rest := t[i + |s|..];
      ReplaceAddsBrackets(rest, s);
      NoBracketNoOpen(s);
      MarkOpens();
      assert t == t[..i] + (s + rest);
      OpensAdd(t[..i], s + rest);
      OpensAdd(s, rest);
      OpensAdd(t[..i] + MARK, Replace(rest, s));
      OpensAdd(t[..i], MARK);
    }
  }

  lemma MarkOpens()
    ensures Opens(MARK) == 1
  {
    assert MARK[1..] == "redacted]" && BracketFree("redacted");
    assert "redacted]" == "redacted" + "]" && "]"[1..] == [];
    NoBracketNoOpen("redacted");
    OpensAdd("redacted", "]");
  }

  lemma {:induction false} ReplaceAllAddsBrackets(t: string, secrets: seq<string>)
    requires NoEmpty(secrets) && AllBracketFree(secrets)
    ensures Opens(ReplaceAll(t, secrets)) >= Opens(t)
    ensures !Clean(t, secrets) ==> Opens(ReplaceAll(t, secrets)) > Opens(t)
    decreases |secrets|
  {
    hide Opens;
    if secrets != [] {
      var init, last := secrets[..|secrets| - 1], secrets[|secrets| - 1];
      var before := ReplaceAll(t, init);
      ReplaceAllAddsBrackets(t, init);
      ReplaceAddsBrackets(before, last);
      if Clean(t, init) {
        ReplaceAllOfClean(t, init);
        assert forall s :: s in secrets ==> s in init || s == last;
      }
    }
  }

  /** For secrets without brackets, a text is left unchanged exactly when it contains none; so
      redacting twice is redacting once exactly when the first time removed every secret. */
  lemma OnlyCleanTextsAreKept(t: string, secrets: seq<string>)
    requires AllBracketFree(secrets)
    ensures Redact(t, secrets) == t <==> Clean(t, secrets)
    ensures Redact(Redact(t, secrets), secrets) == Redact(t, secrets) <==> Clean(t, secrets) || Harmless(secrets)
  {
    hide Opens;
    OrderedMeans(secrets);
    var ordered, once := Ordered(secrets), Redact(t, secrets);
    assert Clean(t, secrets) == Clean(t, ordered) && Clean(once, secrets) == Clean(once, ordered);
    RedactionIsIdempotent(t, secrets);
    ReplaceAllAddsBrackets(t, ordered);
    ReplaceAllAddsBrackets(once, ordered);
    forall s <- secrets | |s| > 0 ensures !Straddles(s) {
      BracketFreeIsSafe(s);
    }
    RedactionIsComplete(t, secrets);
  }

  // ---- why the order matters ----

  lemma TooLongToOccur(t: string, u: string)
    requires |u| >= |t| && u != t
    ensures !Occurs(t, u)
  {
    if i :| At(t, u, i) {
      assert t[i..i + |u|] == t;
    }
  }

  lemma EmptyHasNone(u: string)
    requires |u| > 0
    ensures !Occurs([], u)
  {
  }

  /** Replacing the only occurrence of a secret, at a known place. */
  lemma ReplaceOnce(a: string, s: string)
    requires |s| > 0 && forall i :: 0 <= i < |a| ==> !At(a + s, s, i)
    ensures Replace(a + s, s) == a + MARK
  {
    hide Find;
    var t := a + s;
    assert t[|a|..|a| + |s|] == s;
    assert At(t, s, |a|) && Find(t, s) == |a|;
    assert t[..|a|] == a && t[|a| + |s|..] == [];
    EmptyHasNone(s);
    ReplaceShows([], s);
    assert a + MARK + [] == a + MARK;
  }

  lemma ReplaceWhole(s: string)
    requires |s| > 0
    ensures Replace(s, s) == MARK
  {
    assert [] + s == s && [] + MARK == MARK;
    ReplaceOnce([], s);
  }

  lemma {:induction false} ReplaceAllOfSecret(secret: string, secrets: seq<string>)
    requires NoEmpty(secrets) && NoneStraddles(secrets) && Harmless(secrets) && Falling(secrets)
    ensures ReplaceAll(secret, secrets) == if secret in secrets then MARK
      else if forall s <- secrets :: |s| >= |secret| then secret else ReplaceAll(secret, secrets)
    decreases |secrets|
  {
    if secrets != [] {
      var init, last := secrets[..|secrets| - 1], secrets[|secrets| - 1];
      ReplaceAllOfSecret(secret, init);
      assert forall s :: s in secrets <==> s in init || s == last;
      if secret in init {
        ReplaceShows(MARK, last);
      } else if secret == last {
        ReplaceWhole(secret);
      } else if forall s <- secrets :: |s| >= |secret| {
        TooLongToOccur(secret, last);
        ReplaceShows(secret, last);
      }
    }
  }

  /** Longest first: an output that is exactly one of the secrets becomes exactly one mark,
      even when shorter secrets are parts of it. */
  lemma WholeSecretLeavesNothing(secret: string, secrets: seq<string>)
    requires NoneStraddles(secrets) && Harmless(secrets) && secret in secrets && |secret| > 0
    ensures Redact(secret, secrets) == MARK
  {
    OrderedMeans(secrets);
    ReplaceAllOfSecret(secret, Ordered(secrets));
  }

  lemma TwoInOrder()
    ensures Ordered(["ab", "x[redacted]"]) == ["x[redacted]", "ab"]
  {
    var secrets := ["ab", "x[redacted]"];
    assert secrets[1..] == ["x[redacted]"];
    assert NonEmpty(secrets[1..]) == ["x[redacted]"] && NonEmpty(secrets) == secrets;
    assert LongestFirst(secrets[1..]) == ["x[redacted]"];
  }

  lemma OneSecretCompletesAnother()
    ensures ReplaceAll("xab", ["x[redacted]", "ab"]) == "x[redacted]"
  {
    var ordered := ["x[redacted]", "ab"];
    assert ordered[..1] == ["x[redacted]"] && ordered[..1][..0] == [];
    TooLongToOccur("xab", "x[redacted]");
    ReplaceShows("xab", "x[redacted]");
    assert "x" + "ab" == "xab" && "x" + MARK == "x[redacted]";
    assert "xab"[0..2][0] == 'x' && "ab"[0] == 'a';
    ReplaceOnce("x", "ab");
  }

  /** The condition is needed: a secret that contains the mark can be completed by replacing
      another, though neither is part of the mark. */
  lemma BracketsCanCompleteASecret()
    ensures var secrets := ["ab", "x[redacted]"];
      Harmless(secrets) && Redact("xab", secrets) == "x[redacted]" && !Clean(Redact("xab", secrets), secrets)
  {
    hide ReplaceAll;
    var secrets := ["ab", "x[redacted]"];
    TwoInOrder();
    OneSecretCompletesAnother();
    assert "x[redacted]"[0..11] == "x[redacted]" && At("x[redacted]", "x[redacted]", 0);
    assert secrets[1] in secrets;
    forall s <- secrets ensures !Occurs(MARK, s) {
      NotInMark(s);
    }
  }

  lemma NotInMark(s: string)
    requires s == "ab" || s == "x[redacted]"
    ensures !Occurs(MARK, s)
  {
    forall i: int ensures !At(MARK, s, i) {
      if 0 <= i && i + |s| <= |MARK| {
        assert MARK[i..i + |s|][0] == MARK[i] && MARK[i..i + |s|][1] == MARK[i + 1];
      }
    }
  }

  // ---- command results ----

  datatype CommandResult = CommandResult(command: string, exitCode: Option<int>, stdout: string, stderr: string)

  function Redacted(result: CommandResult, secrets: seq<string>): CommandResult {
    result.(command := Redact(result.command, secrets),
            stdout := Redact(result.stdout, secrets),
            stderr := Redact(result.stderr, secrets))
  }

  /** No text of a redacted result contains a secret, and its exit code is kept. */
  lemma ResultIsRedacted(result: CommandResult, secrets: seq<string>)
    requires NoneStraddles(secrets) && Harmless(secrets)
    ensures var r := Redacted(result, secrets);
      && Clean(r.command, secrets) && Clean(r.stdout, secrets) && Clean(r.stderr, secrets)
      && r.exitCode == result.exitCode && Redacted(r, secrets) == r
  {
    RedactionIsComplete(result.command, secrets);
    RedactionIsComplete(result.stdout, secrets);
    RedactionIsComplete(result.stderr, secrets);
    RedactionIsIdempotent(result.command, secrets);
    RedactionIsIdempotent(result.stdout, secrets);
    RedactionIsIdempotent(result.stderr, secrets);
  }
}
