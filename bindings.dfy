// Key binding edits of bindings.cpp.  The host keeps, per key, a bind string:
// commands separated by ';'.  addBind and removeBind split that string the
// way strtok does, trim each token and drop the empty ones, add or filter the
// command, and join the list back with ';'.  captureBindKey moves a
// command's bind to the first pressed key of a fixed list.
module Bindings {
  import opened Wrappers

  // ---------------------------------------------------------------------
  // Tokens.

  /** isspace in the C locale: space, and \t \n \v \f \r. */
  predicate IsSpace(c: char) {
    c == ' ' || 9 <= c as int <= 13
  }

  /** The first index from `i` on that does not hold whitespace. */
  function SkipSpace(s: string, i: nat): (j: nat)
    requires i <= |s|
    ensures i <= j <= |s| && (j == |s| || !IsSpace(s[j]))
    decreases |s| - i
  {
    if i < |s| && IsSpace(s[i]) then SkipSpace(s, i + 1) else i
  }

  /** The end of `s[lo..j]` once its trailing whitespace is dropped. */
  function SkipSpaceBack(s: string, lo: nat, j: nat): (r: nat)
    requires lo <= j <= |s|
    ensures lo <= r <= j && (r == lo || !IsSpace(s[r - 1]))
    decreases j
  {
    if lo < j && IsSpace(s[j - 1]) then SkipSpaceBack(s, lo, j - 1) else j
  }

  /** Every character from `i` up to SkipSpace(s, i) is whitespace. */
  lemma {:induction false} SkipSpaceSkips(s: string, i: nat)
    requires i <= |s|
    ensures forall k :: i <= k < SkipSpace(s, i) ==> IsSpace(s[k])
    decreases |s| - i
  {
    if i < |s| && IsSpace(s[i]) {
      SkipSpaceSkips(s, i + 1);
    }
  }

  /** Every character from SkipSpaceBack(s, lo, j) up to `j` is whitespace. */
  lemma {:induction false} SkipSpaceBackSkips(s: string, lo: nat, j: nat)
    requires lo <= j <= |s|
    ensures forall k :: SkipSpaceBack(s, lo, j) <= k < j ==> IsSpace(s[k])
    decreases j
  {
    if lo < j && IsSpace(s[j - 1]) {
      SkipSpaceBackSkips(s, lo, j - 1);
    }
  }

  /** trim (of the host's string utilities): whitespace removed at both ends. */
  function Trim(s: string): string {
    var i := SkipSpace(s, 0);
    s[i..SkipSpaceBack(s, i, |s|)]
  }

  /** Trimming keeps the piece of the string between two runs of whitespace,
      with no whitespace at either end of it, and trimming again changes
      nothing. */
  lemma TrimRule(s: string)
    ensures exists i, j :: 0 <= i <= j <= |s| && Trim(s) == s[i..j]
                           && (forall k :: 0 <= k < i ==> IsSpace(s[k]))
                           && (forall k :: j <= k < |s| ==> IsSpace(s[k]))
    ensures |Trim(s)| == 0 || (!IsSpace(Trim(s)[0]) && !IsSpace(Trim(s)[|Trim(s)| - 1]))
    ensures Trim(Trim(s)) == Trim(s)
  {
    var i := SkipSpace(s, 0);
    var j := SkipSpaceBack(s, i, |s|);
    SkipSpaceSkips(s, 0);
    SkipSpaceBackSkips(s, i, |s|);
    var t := s[i..j];
    if |t| > 0 {
      assert t[0] == s[i] && t[|t| - 1] == s[j - 1];
    }
    TrimmedIsFixed(t);
  }

  /** A string with no whitespace at either end is its own trim. */
  lemma TrimmedIsFixed(s: string)
    requires |s| == 0 || (!IsSpace(s[0]) && !IsSpace(s[|s| - 1]))
    ensures Trim(s) == s
  {
    assert SkipSpace(s, 0) == 0;
    assert SkipSpaceBack(s, 0, |s|) == |s|;
    assert s[0..|s|] == s;
  }

  /** A command as the join writes it: non-empty, no ';', no whitespace at
      either end. */
  predicate Clean(c: string) {
    |c| > 0 && ';' !in c && !IsSpace(c[0]) && !IsSpace(c[|c| - 1])
  }

  /** The command one token contributes: its trim, unless that is empty. */
  function Kept(token: string): (r: seq<string>)
    ensures |r| <= 1
  {
    if Trim(token) == "" then [] else [Trim(token)]
  }

  /** The command a ';'-free token contributes is clean, and a clean token
      contributes itself. */
  lemma KeptRule(token: string)
    ensures ';' !in token ==> forall k :: 0 <= k < |Kept(token)| ==> Clean(Kept(token)[k])
    ensures Clean(token) ==> Kept(token) == [token]
  {
    TrimRule(token);
    if Clean(token) {
      TrimmedIsFixed(token);
    }
  }

  /** The commands a run of tokens contributes, in order. */
  function KeptAll(tokens: seq<string>): seq<string> {
    KeptUpTo(tokens, |tokens|)
  }

  /** The commands the first `n` tokens contribute. */
  function KeptUpTo(tokens: seq<string>, n: nat): seq<string>
    requires n <= |tokens|
  {
    if n == 0 then [] else KeptUpTo(tokens, n - 1) + Kept(tokens[n - 1])
  }

  /** What the first `n` tokens contribute does not depend on those after. */
  lemma {:induction false} KeptUpToPrefix(a: seq<string>, b: seq<string>, n: nat)
    requires n <= |a|
    ensures KeptUpTo(a + b, n) == KeptUpTo(a, n)
  {
    if n > 0 {
      var ab := a + b;
      KeptUpToPrefix(a, b, n - 1);
      assert ab[n - 1] == a[n - 1];
      assert KeptUpTo(ab, n) == KeptUpTo(ab, n - 1) + Kept(a[n - 1]);
    }
  }

  /** One more token. */
  lemma KeptAllSnoc(tokens: seq<string>, token: string)
    ensures KeptAll(tokens + [token]) == KeptAll(tokens) + Kept(token)
  {
    KeptUpToPrefix(tokens, [token], |tokens|);
    assert (tokens + [token])[|tokens|] == token;
  }

  /** Tokens with no ';' give clean commands ... */
  lemma KeptAllClean(tokens: seq<string>)
    requires forall k :: 0 <= k < |tokens| ==> ';' !in tokens[k]
    ensures forall k :: 0 <= k < |KeptAll(tokens)| ==> Clean(KeptAll(tokens)[k])
  {
    KeptUpToClean(tokens, |tokens|);
  }

  lemma {:induction false} KeptUpToClean(tokens: seq<string>, n: nat)
    requires n <= |tokens| && forall k :: 0 <= k < |tokens| ==> ';' !in tokens[k]
    ensures forall k :: 0 <= k < |KeptUpTo(tokens, n)| ==> Clean(KeptUpTo(tokens, n)[k])
  {
    if n > 0 {
      KeptUpToClean(tokens, n - 1);
      KeptRule(tokens[n - 1]);
    }
  }

  /** ... and clean tokens give themselves. */
  lemma KeptAllOfClean(cs: seq<string>)
    requires forall k :: 0 <= k < |cs| ==> Clean(cs[k])
    ensures KeptAll(cs) == cs
  {
    KeptUpToOfClean(cs, |cs|);
    assert cs[..|cs|] == cs;
  }

  lemma {:induction false} KeptUpToOfClean(cs: seq<string>, n: nat)
    requires n <= |cs| && forall k :: 0 <= k < |cs| ==> Clean(cs[k])
    ensures KeptUpTo(cs, n) == cs[..n]
  {
    if n > 0 {
      KeptUpToOfClean(cs, n - 1);
      KeptRule(cs[n - 1]);
      TakeOneMore(cs, n);
    }
  }

  /** One more element of a list. */
  lemma TakeOneMore<T>(xs: seq<T>, n: nat)
    requires 0 < n <= |xs|
    ensures xs[..n - 1] + [xs[n - 1]] == xs[..n]
  {
  }

  // ---------------------------------------------------------------------
  // Reading a bind string.

  /** Where the strtok loop stands: the tokens ended so far, empty ones
      included, and the token being read. */
  datatype Tokens = Tokens(pieces: seq<string>, token: string)

  /** The strtok loop after the first `i` characters of `s`: a ';' ends the
      token, any other character extends it.  Runs of ';' and a leading or
      trailing ';' end empty tokens, which is what strtok skips (their trim
      is empty, so no command comes of them). */
  function Scan(s: string, i: nat): Tokens
    requires i <= |s|
  {
    if i == 0 then Tokens([], "")
    else
      var r := Scan(s, i - 1);
      if s[i - 1] == ';' then Tokens(r.pieces + [r.token], "")
      else Tokens(r.pieces, r.token + [s[i - 1]])
  }

  /** No token read holds a ';'. */
  lemma {:induction false} ScanSeparates(s: string, i: nat)
    requires i <= |s|
    ensures var r := Scan(s, i);
            ';' !in r.token && forall k :: 0 <= k < |r.pieces| ==> ';' !in r.pieces[k]
  {
    if i > 0 {
      ScanSeparates(s, i - 1);
    }
  }

  /** The commands of a bind string, in order: the tokens strtok finds,
      trimmed, the empty ones dropped. */
  function Commands(s: string): seq<string> {
    var r := Scan(s, |s|);
    KeptAll(r.pieces + [r.token])
  }

  /** Every command read from a bind string is clean. */
  lemma CommandsClean(s: string)
    ensures forall k :: 0 <= k < |Commands(s)| ==> Clean(Commands(s)[k])
  {
    var r := Scan(s, |s|);
    ScanSeparates(s, |s|);
    KeptAllClean(r.pieces + [r.token]);
  }

  /** A key with no bind has no commands. */
  lemma CommandsOfEmpty()
    ensures Commands("") == []
  {
    assert Scan("", 0) == Tokens([], "");
    assert [] + [""] == [""];
    TrimmedIsFixed("");
    assert KeptAll([""]) == KeptUpTo([""], 0) + Kept("");
  }

  /** The scan of a prefix does not look past it. */
  lemma {:induction false} ScanPrefix(a: string, s: string, i: nat)
    requires a <= s && i <= |a|
    ensures Scan(s, i) == Scan(a, i)
  {
    if i > 0 {
      ScanPrefix(a, s, i - 1);
      assert s[i - 1] == a[i - 1];
    }
  }

  /** Reading from `i` to `j` with no ';' in between only extends the
      token. */
  lemma {:induction false} ScanPiece(s: string, i: nat, j: nat)
    requires i <= j <= |s| && forall k :: i <= k < j ==> s[k] != ';'
    ensures Scan(s, j) == Tokens(Scan(s, i).pieces, Scan(s, i).token + s[i..j])
  {
    if i < j {
      ScanPiece(s, i, j - 1);
      assert s[i..j] == s[i..j - 1] + [s[j - 1]];
    } else {
      assert Scan(s, i).token + s[i..j] == Scan(s, i).token;
    }
  }

  // ---------------------------------------------------------------------
  // Joining.

  /** The first `n` commands, each followed by ';'. */
  function Terminated(cs: seq<string>, n: nat): string
    requires n <= |cs|
  {
    if n == 0 then "" else Terminated(cs, n - 1) + cs[n - 1] + ";"
  }

  /** The stringstream of addBind and removeBind: all but the last command
      each followed by ';', then the last. */
  function Join(cs: seq<string>): string
    requires |cs| > 0
  {
    Terminated(cs, |cs| - 1) + cs[|cs| - 1]
  }

  /** `c` read at `i` of `s`: no ';' there when `c` has none. */
  lemma NoSeparatorAt(s: string, i: nat, c: string)
    requires i + |c| <= |s| && s[i..i + |c|] == c && ';' !in c
    ensures forall k :: i <= k < i + |c| ==> s[k] != ';'
  {
    forall k | i <= k < i + |c|
      ensures s[k] != ';'
    {
      assert s[k] == s[i..i + |c|][k - i];
    }
  }

  /** What follows a prefix. */
  lemma AfterPrefix(t: string, c: string, rest: string)
    ensures t <= t + c + rest && (t + c + rest)[|t|..|t| + |c|] == c
  {
    assert (t + c + rest)[..|t|] == t;
  }

  /** Reading back the first `n` commands of a clean list, each followed by
      ';', gives them with no token pending, whatever follows. */
  lemma {:induction false} ScanTerminated(cs: seq<string>, n: nat, s: string)
    requires n <= |cs| && forall k :: 0 <= k < |cs| ==> Clean(cs[k])
    requires Terminated(cs, n) <= s
    ensures Scan(s, |Terminated(cs, n)|) == Tokens(cs[..n], "")
  {
    if n > 0 {
      var t, c := Terminated(cs, n - 1), cs[n - 1];
      ghost var tn := Terminated(cs, n);
      assert tn == t + c + ";";
      AfterPrefix(t, c, ";");
      PrefixTrans(t, tn, s);
      ScanTerminated(cs, n - 1, s);
      SliceOfPrefix(tn, s, |t|, |t| + |c|);
      assert s[|t| + |c|] == tn[|t| + |c|] == ';';
      ScanCommand(s, |t|, c, cs[..n - 1]);
      TakeOneMore(cs, n);
    }
  }

  /** One command followed by ';' is read as one more piece. */
  lemma ScanCommand(s: string, i: nat, c: string, pieces: seq<string>)
    requires i + |c| < |s| && s[i..i + |c|] == c && ';' !in c && s[i + |c|] == ';'
    requires Scan(s, i) == Tokens(pieces, "")
    ensures Scan(s, i + |c| + 1) == Tokens(pieces + [c], "")
  {
    NoSeparatorAt(s, i, c);
    ScanPiece(s, i, i + |c|);
    assert [] + c == c;
  }

  lemma PrefixTrans(a: string, b: string, c: string)
    requires a <= b && b <= c
    ensures a <= c
  {
  }

  /** A slice within a prefix is the prefix's slice. */
  lemma SliceOfPrefix(a: string, s: string, i: nat, j: nat)
    requires a <= s && i <= j <= |a|
    ensures s[i..j] == a[i..j]
  {
  }

  /** Reading back the join of clean commands gives them again. */
  lemma CommandsOfJoin(cs: seq<string>)
    requires |cs| > 0 && forall k :: 0 <= k < |cs| ==> Clean(cs[k])
    ensures Commands(Join(cs)) == cs
  {
    var n := |cs|;
    var t, c := Terminated(cs, n - 1), cs[n - 1];
    var s := Join(cs);
    AfterPrefix(t, c, "");
    assert s == t + c + "";
    ScanTerminated(cs, n - 1, s);
    NoSeparatorAt(s, |t|, c);
    ScanPiece(s, |t|, |s|);
    assert [] + c == c;
    assert Scan(s, |s|) == Tokens(cs[..n - 1], c);
    TakeOneMore(cs, n);
    assert cs[..n - 1] + [c] == cs;
    KeptAllOfClean(cs);
  }

  /** The join of clean commands neither starts nor ends with ';'. */
  lemma JoinEnds(cs: seq<string>)
    requires |cs| > 0 && forall k :: 0 <= k < |cs| ==> Clean(cs[k])
    ensures var j := Join(cs); |j| > 0 && j[0] != ';' && j[|j| - 1] != ';'
  {
    var j := Join(cs);
    var last := cs[|cs| - 1];
    assert Clean(last);
    assert j[|j| - 1] == last[|last| - 1];
    TerminatedStart(cs, |cs| - 1);
    if |cs| == 1 {
      assert j == cs[0];
    }
  }

  lemma {:induction false} TerminatedStart(cs: seq<string>, n: nat)
    requires 0 < |cs| && n <= |cs| && forall k :: 0 <= k < |cs| ==> Clean(cs[k])
    ensures n > 0 ==> |Terminated(cs, n)| > 0 && Terminated(cs, n)[0] != ';'
  {
    if n > 1 {
      TerminatedStart(cs, n - 1);
    } else if n == 1 {
      assert Clean(cs[0]);
      assert Terminated(cs, 1) == [] + cs[0] + ";";
      assert Terminated(cs, 1)[0] == cs[0][0];
    }
  }

  // ---------------------------------------------------------------------
  // The loops.

  /** The strtok loop of addBind (`drop` None) and removeBind (`drop` the
      command removed): every trimmed non-empty token, except those equal to
      `drop`. */
  method Tokenize(s: string, drop: Option<string>) returns (cmds: seq<string>)
    ensures cmds == Without(Commands(s), drop)
  {
    cmds := [];
    var token := "";
    for i := 0 to |s|
      invariant token == Scan(s, i).token && cmds == Without(KeptAll(Scan(s, i).pieces), drop)
    {
      if s[i] == ';' {
        var tok := Trim(token);
        EndToken(Scan(s, i).pieces, token, drop);
        if tok != "" && Some(tok) != drop {
          cmds := cmds + [tok];
        }
        token := "";
      } else {
        token := token + [s[i]];
      }
    }
    var tok := Trim(token);
    EndToken(Scan(s, |s|).pieces, token, drop);
    if tok != "" && Some(tok) != drop {
      cmds := cmds + [tok];
    }
  }

  /** The commands kept once a token ends: those before, then its trim
      unless that is empty or `drop`. */
  lemma EndToken(pieces: seq<string>, token: string, drop: Option<string>)
    ensures Without(KeptAll(pieces + [token]), drop)
            == Without(KeptAll(pieces), drop)
               + (if Trim(token) != "" && Some(Trim(token)) != drop then [Trim(token)] else [])
  {
    KeptAllSnoc(pieces, token);
    WithoutAppend(KeptAll(pieces), Kept(token), drop);
    if Trim(token) != "" {
      assert Without(Kept(token), drop) == Without([], drop) + (if Some(Trim(token)) == drop then [] else [Trim(token)]);
    }
  }

  /** The commands other than `drop`, in order. */
  function Without(cs: seq<string>, drop: Option<string>): (r: seq<string>)
    ensures forall k :: 0 <= k < |r| ==> Some(r[k]) != drop
  {
    if |cs| == 0 then []
    else Without(cs[..|cs| - 1], drop) + (if Some(cs[|cs| - 1]) == drop then [] else [cs[|cs| - 1]])
  }

  /** Filtering a list of commands filters its two parts. */
  lemma {:induction false} WithoutAppend(a: seq<string>, b: seq<string>, drop: Option<string>)
    ensures Without(a + b, drop) == Without(a, drop) + Without(b, drop)
    decreases |b|
  {
    if |b| > 0 {
      var b' := b[..|b| - 1];
      WithoutAppend(a, b', drop);
      assert (a + b)[..|a + b| - 1] == a + b';
      assert (a + b)[|a + b| - 1] == b[|b| - 1];
    } else {
      assert a + b == a;
    }
  }

  /** Filtering keeps clean commands clean. */
  lemma {:induction false} WithoutClean(cs: seq<string>, drop: Option<string>)
    requires forall k :: 0 <= k < |cs| ==> Clean(cs[k])
    ensures forall k :: 0 <= k < |Without(cs, drop)| ==> Clean(Without(cs, drop)[k])
  {
    if |cs| > 0 {
      WithoutClean(cs[..|cs| - 1], drop);
    }
  }

  /** Filtering adds no command. */
  lemma {:induction false} WithoutKeeps(cs: seq<string>, drop: Option<string>, c: string)
    ensures c in Without(cs, drop) ==> c in cs
  {
    if |cs| > 0 {
      WithoutKeeps(cs[..|cs| - 1], drop, c);
      assert cs == cs[..|cs| - 1] + [cs[|cs| - 1]];
    }
  }

  /** Filtering out nothing keeps every command. */
  lemma {:induction false} WithoutNone(cs: seq<string>)
    ensures Without(cs, None) == cs
  {
    if |cs| > 0 {
      WithoutNone(cs[..|cs| - 1]);
      assert cs[..|cs| - 1] + [cs[|cs| - 1]] == cs;
    }
  }

  /** The stringstream join. */
  method JoinCommands(cmds: seq<string>) returns (s: string)
    requires |cmds| > 0
    ensures s == Join(cmds)
  {
    s := "";
    for i := 0 to |cmds| - 1
      invariant s == Terminated(cmds, i)
    {
      s := s + cmds[i] + ";";
    }
    s := s + cmds[|cmds| - 1];
  }
}
