/** Redaction hides secrets and nothing else: the text around them survives, in its place. */
module RedactionLayout {
  import opened Redaction

  /** A text cut at the secrets that a redaction found in it. */
  datatype Layout = End(text: string) | More(text: string, secret: string, rest: Layout)

  /** The text as it was. */
  function Source(l: Layout): string {
    match l
    case End(text) => text
    case More(text, secret, rest) => text + secret + Source(rest)
  }

  /** The text as it is shown: a mark in the place of every secret. */
  function Shown(l: Layout): string {
    match l
    case End(text) => text
    case More(text, _, rest) => text + MARK + Shown(rest)
  }

  /** What is hidden is one of the secrets, and what is shown around it contains none. */
  ghost predicate Sound(l: Layout, secrets: seq<string>) {
    && Clean(l.text, secrets)
    && (l.More? ==> l.secret in secrets && |l.secret| > 0 && Sound(l.rest, secrets))
  }

  // ---- one secret ----

  function Lay(t: string, s: string): Layout
    requires |s| > 0
    decreases |t|
  {
    var i := Find(t, s);
    if i < 0 then End(t) else More(t[..i], s, Lay(t[i + |s|..], s))
  }

  lemma CutAt(t: string, s: string, i: int)
    requires At(t, s, i)
    ensures i + |s| <= |t| && t == t[..i] + s + t[i + |s|..]
  {
  }

  lemma {:induction false} LayMeans(t: string, s: string)
    requires |s| > 0
    ensures Source(Lay(t, s)) == t && Shown(Lay(t, s)) == Replace(t, s)
    decreases |t|
  {
    hide At, Occurs;
    var i := Find(t, s);
    if i >= 0 {
      CutAt(t, s, i);
      LayMeans(t[i + |s|..], s);
    }
  }

  /** The pieces of a text contain nothing that the text does not. */
  lemma PieceIsClean(t: string, from: nat, to: nat, secrets: seq<string>)
    requires from <= to <= |t| && Clean(t, secrets)
    ensures Clean(t[from..to], secrets)
  {
    forall u <- secrets | |u| > 0 ensures !Occurs(t[from..to], u) {
      if Occurs(t[from..to], u) {
        OccursInPart(t, u, from, to);
      }
    }
  }

  lemma CleanOfOneMore(t: string, secrets: seq<string>, s: string)
    requires Clean(t, secrets) && !Occurs(t, s)
    ensures Clean(t, secrets + [s])
  {
  }

  lemma {:induction false} LayIsSound(t: string, s: string, before: seq<string>)
    requires |s| > 0 && Clean(t, before)
    ensures Sound(Lay(t, s), before + [s])
    decreases |t|
  {
    hide Clean, Occurs, At;
    var i := Find(t, s);
    if i < 0 {
      CleanOfOneMore(t, before, s);
    } else {
      CutAt(t, s, i);
      assert (before + [s])[|before|] == s;
      PrefixHasNone(t, s, i);
      PieceIsClean(t, 0, i, before);
      assert t[0..i] == t[..i] && t[i + |s|..|t|] == t[i + |s|..];
      CleanOfOneMore(t[..i], before, s);
      PieceIsClean(t, i + |s|, |t|, before);
      LayIsSound(t[i + |s|..], s, before);
    }
  }

  // ---- the mark keeps replacements apart ----

  /** Around a mark, a text that does not overlap its ends lies before it, after it, or in it. */
  lemma PlaceAroundMark(a: string, b: string, u: string, i: int)
    requires |u| > 0 && !Straddles(u)
    ensures At(a + MARK + b, u, i) ==> At(a, u, i) || At(b, u, i - |a| - |MARK|) || At(MARK, u, i - |a|)
    ensures At(a, u, i) || At(b, u, i - |a| - |MARK|) ==> At(a + MARK + b, u, i)
  {
    hide Agrees;
    var t := a + MARK + b;
    var d := i - |a|;
    if At(t, u, i) {
      LiesOver(a, b, u, i);
      if d + |u| <= 0 {
        assert a[i..i + |u|] == t[i..i + |u|];
      } else if d >= |MARK| {
        assert b[d - |MARK|..d - |MARK| + |u|] == t[i..i + |u|];
      } else {
        assert 0 <= d && d + |u| <= |MARK|;
        assert MARK[d..d + |u|] == t[i..i + |u|];
      }
    }
    if At(a, u, i) {
      assert a[i..i + |u|] == t[i..i + |u|];
    }
    if At(b, u, d - |MARK|) {
      assert b[d - |MARK|..d - |MARK| + |u|] == t[i..i + |u|];
    }
  }

  lemma FindMeans(t: string, s: string, i: int)
    requires i >= 0 ==> At(t, s, i) && forall j :: 0 <= j < i ==> !At(t, s, j)
    requires i < 0 ==> i == -1 && forall j :: !At(t, s, j)
    ensures Find(t, s) == i
  {
  }

  lemma FindAroundMark(a: string, b: string, s: string)
    requires |s| > 0 && !Straddles(s) && !Occurs(MARK, s)
    ensures Find(a + MARK + b, s) ==
      if Find(a, s) >= 0 then Find(a, s)
      else if Find(b, s) >= 0 then |a| + |MARK| + Find(b, s) else -1
  {
    hide Straddles;
    var t, i, j := a + MARK + b, Find(a, s), Find(b, s);
    var k := if i >= 0 then i else if j >= 0 then |a| + |MARK| + j else -1;
    if k >= 0 {
      PlaceAroundMark(a, b, s, k);
      forall m | 0 <= m < k ensures !At(t, s, m) {
        PlaceAroundMark(a, b, s, m);
      }
    } else {
      forall m ensures !At(t, s, m) {
        PlaceAroundMark(a, b, s, m);
      }
    }
    FindMeans(t, s, k);
  }

  lemma SplitBeforeMark(a: string, b: string, i: nat, n: nat)
    requires i + n <= |a|
    ensures (a + MARK + b)[..i] == a[..i] && (a + MARK + b)[i + n..] == a[i + n..] + MARK + b
  {
  }

  lemma SplitAfterMark(a: string, b: string, j: nat, n: nat)
    requires j + n <= |b|
    ensures (a + MARK + b)[..|a| + |MARK| + j] == a + MARK + b[..j]
    ensures (a + MARK + b)[|a| + |MARK| + j + n..] == b[j + n..]
  {
  }

  lemma ReplaceUnfolds(t: string, s: string)
    requires |s| > 0
    ensures var i := Find(t, s);
      if i < 0 then Replace(t, s) == t
      else i + |s| <= |t| && Replace(t, s) == t[..i] + MARK + Replace(t[i + |s|..], s)
  {
  }

  lemma ReplaceAfterMark(a: string, b: string, s: string)
    requires |s| > 0 && !Straddles(s) && !Occurs(MARK, s) && Find(a, s) < 0
    ensures Replace(a + MARK + b, s) == a + MARK + Replace(b, s)
  {
    hide Straddles, Occurs, Find, Replace;
    FindAroundMark(a, b, s);
    ReplaceUnfolds(a + MARK + b, s);
    ReplaceUnfolds(b, s);
    var j := Find(b, s);
    if j >= 0 {
      SplitAfterMark(a, b, j, |s|);
      MarksAssociate(a, b[..j], Replace(b[j + |s|..], s));
    }
  }

  lemma {:induction false} ReplaceAroundMark(a: string, b: string, s: string)
    requires |s| > 0 && !Straddles(s) && !Occurs(MARK, s)
    ensures Replace(a + MARK + b, s) == Replace(a, s) + MARK + Replace(b, s)
    decreases |a|
  {
    hide Straddles, Occurs, Find, Replace;
    var i := Find(a, s);
    ReplaceUnfolds(a, s);
    if i >= 0 {
      FindAroundMark(a, b, s);
      ReplaceUnfolds(a + MARK + b, s);
      SplitBeforeMark(a, b, i, |s|);
      ReplaceAroundMark(a[i + |s|..], b, s);
      MarksAssociate(a[..i], Replace(a[i + |s|..], s), Replace(b, s));
    } else {
      ReplaceAfterMark(a, b, s);
    }
  }

  lemma MarksAssociate(a: string, b: string, c: string)
    ensures a + MARK + (b + MARK + c) == (a + MARK + b) + MARK + c
  {
  }

  // ---- a further secret ----

  function Join(l: Layout, secret: string, r: Layout): Layout {
    match l
    case End(text) => More(text, secret, r)
    case More(text, s, rest) => More(text, s, Join(rest, secret, r))
  }

  lemma {:induction false} JoinMeans(l: Layout, secret: string, r: Layout, secrets: seq<string>)
    ensures Source(Join(l, secret, r)) == Source(l) + secret + Source(r)
    ensures Shown(Join(l, secret, r)) == Shown(l) + MARK + Shown(r)
    ensures Sound(l, secrets) && Sound(r, secrets) && secret in secrets && |secret| > 0 ==>
      Sound(Join(l, secret, r), secrets)
    decreases l
  {
    match l
    case End(_) =>
    case More(text, s, rest) =>
      JoinMeans(rest, secret, r, secrets);
      assert text + s + (Source(rest) + secret + Source(r)) == (text + s + Source(rest)) + secret + Source(r);
      MarksAssociate(text, Shown(rest), Shown(r));
  }

  function Refine(l: Layout, s: string): Layout
    requires |s| > 0
  {
    match l
    case End(text) => Lay(text, s)
    case More(text, secret, rest) => Join(Lay(text, s), secret, Refine(rest, s))
  }

  lemma {:induction false} RefineMeans(l: Layout, s: string, secrets: seq<string>)
    requires |s| > 0 && !Straddles(s) && !Occurs(MARK, s) && Sound(l, secrets)
    ensures Source(Refine(l, s)) == Source(l)
    ensures Shown(Refine(l, s)) == Replace(Shown(l), s)
    ensures Sound(Refine(l, s), secrets + [s])
    decreases l
  {
    hide Straddles, Clean;
    LayMeans(l.text, s);
    LayIsSound(l.text, s, secrets);
    match l
    case End(_) =>
    case More(text, secret, rest) =>
      RefineMeans(rest, s, secrets);
      JoinMeans(Lay(text, s), secret, Refine(rest, s), secrets + [s]);
      ReplaceAroundMark(text, Shown(rest), s);
  }

  // ---- all secrets ----

  lemma {:induction false} ReplaceAllLayout(t: string, secrets: seq<string>) returns (l: Layout)
    requires NoEmpty(secrets) && NoneStraddles(secrets) && Harmless(secrets)
    ensures Source(l) == t && Shown(l) == ReplaceAll(t, secrets) && Sound(l, secrets)
    decreases |secrets|
  {
    hide Straddles;
    if secrets == [] {
      l := End(t);
    } else {
      var init, last := secrets[..|secrets| - 1], secrets[|secrets| - 1];
      var m := ReplaceAllLayout(t, init);
      RefineMeans(m, last, init);
      assert secrets == init + [last];
      l := Refine(m, last);
    }
  }

  lemma {:induction false} SoundForSame(l: Layout, a: seq<string>, b: seq<string>)
    requires Sound(l, a) && forall s :: |s| > 0 ==> (s in a <==> s in b)
    ensures Sound(l, b)
    decreases l
  {
    if l.More? {
      SoundForSame(l.rest, a, b);
    }
  }

  /** Redaction hides secrets and nothing else. For secrets that neither touch the mark nor lie in
      it, there is a way to cut the text at some secrets so that the redaction shows all the
      rest of it, unchanged and in order, with one mark for each secret that was cut out; and
      what it shows between the marks contains no secret. */
  lemma OnlySecretsAreHidden(t: string, secrets: seq<string>) returns (l: Layout)
    requires NoneStraddles(secrets) && Harmless(secrets)
    ensures Source(l) == t && Shown(l) == Redact(t, secrets) && Sound(l, secrets)
  {
    OrderedMeans(secrets);
    l := ReplaceAllLayout(t, Ordered(secrets));
    SoundForSame(l, Ordered(secrets), secrets);
  }

  /** A redacted result shows each of its texts redacted in its own place. */
  lemma ResultKeepsItsTexts(result: CommandResult, secrets: seq<string>)
    returns (command: Layout, stdout: Layout, stderr: Layout)
    requires NoneStraddles(secrets) && Harmless(secrets)
    ensures Source(command) == result.command && Source(stdout) == result.stdout && Source(stderr) == result.stderr
    ensures Sound(command, secrets) && Sound(stdout, secrets) && Sound(stderr, secrets)
    ensures Redacted(result, secrets)
         == CommandResult(Shown(command), result.exitCode, Shown(stdout), Shown(stderr))
  {
    hide Sound;
    command := OnlySecretsAreHidden(result.command, secrets);
    stdout := OnlySecretsAreHidden(result.stdout, secrets);
    stderr := OnlySecretsAreHidden(result.stderr, secrets);
  }
}
