/** The local file name that `downloadFile` (main.go) derives from the URL. */
module Download {

  /** `strings.Join(tokens, string(sep))`, the inverse of `Split`. */
  function Join(tokens: seq<string>, sep: char): string {
    if |tokens| == 0 then ""
    else if |tokens| == 1 then tokens[0]
    else tokens[0] + [sep] + Join(tokens[1..], sep)
  }

  /**
   * `strings.Split(s, string(sep))`: the pieces of `s` between occurrences
   * of `sep`, always at least one, none containing `sep`, and joining back to `s`.
   */
  function Split(s: string, sep: char): (tokens: seq<string>)
    ensures |tokens| >= 1
    ensures forall t :: t in tokens ==> sep !in t
    ensures Join(tokens, sep) == s
  {
    if |s| == 0 then [""]
    else
      var rest := Split(s[1..], sep);
      if s[0] == sep then [""] + rest
      else
        assert [s[0]] + s[1..] == s;
        [[s[0]] + rest[0]] + rest[1..]
  }

  /** Splitting at the end of the sequence: everything before the last separator, then the last piece. */
  lemma {:induction false} JoinLast(tokens: seq<string>, sep: char)
    requires |tokens| >= 2
    ensures Join(tokens, sep) == Join(tokens[..|tokens| - 1], sep) + [sep] + tokens[|tokens| - 1]
  {
    if |tokens| > 2 {
      JoinLast(tokens[1..], sep);
      assert tokens[1..][..|tokens| - 2] == tokens[1..|tokens| - 1];
      assert tokens[..|tokens| - 1][1..] == tokens[1..|tokens| - 1];
    }
  }

  /** A join of separator-free pieces contains the separator exactly when there are two pieces or more. */
  lemma JoinHasSeparator(ts: seq<string>, sep: char)
    requires |ts| >= 1
    requires forall t :: t in ts ==> sep !in t
    ensures sep in Join(ts, sep) <==> |ts| >= 2
  {
  }

  /** A separator-free head is fixed by the text it starts: it runs up to the first separator. */
  lemma SplitAtFirstSeparator(a: string, x: string, b: string, y: string, sep: char)
    requires sep !in a && sep !in b
    requires a + [sep] + x == b + [sep] + y
    ensures a == b && x == y
  {
    var j := a + [sep] + x;
    assert j[|a|] == sep && j[|b|] == sep;
    assert forall k :: 0 <= k < |a| ==> j[k] == a[k] != sep;
    assert forall k :: 0 <= k < |b| ==> j[k] == b[k] != sep;
    assert a == j[..|a|] == b;
    assert x == j[|a| + 1..] == y;
  }

  /** Joining separator-free pieces loses nothing: the pieces are determined by the joined text. */
  lemma {:induction false} JoinInjective(ts: seq<string>, us: seq<string>, sep: char)
    requires |ts| >= 1 && |us| >= 1
    requires forall t :: t in ts ==> sep !in t
    requires forall u :: u in us ==> sep !in u
    requires Join(ts, sep) == Join(us, sep)
    ensures ts == us
  {
    JoinHasSeparator(ts, sep);
    JoinHasSeparator(us, sep);
    if |ts| >= 2 {
      assert ts[0] in ts && us[0] in us;
      SplitAtFirstSeparator(ts[0], Join(ts[1..], sep), us[0], Join(us[1..], sep), sep);
      JoinInjective(ts[1..], us[1..], sep);
      assert ts == [ts[0]] + ts[1..];
      assert us == [us[0]] + us[1..];
    }
  }

  /** `Split` undoes `Join` on separator-free pieces. */
  lemma SplitJoin(tokens: seq<string>, sep: char)
    requires |tokens| >= 1
    requires forall t :: t in tokens ==> sep !in t
    ensures Split(Join(tokens, sep), sep) == tokens
  {
    JoinInjective(Split(Join(tokens, sep), sep), tokens, sep);
  }

  /**
   * `tokens[len(tokens)-1]` of `strings.Split(url, "/")`: the text after the
   * last '/' of the URL, or the whole URL when it has no '/'.
   */
  function LocalFileName(url: string): (name: string)
    ensures '/' !in name
    ensures |name| <= |url| && url[|url| - |name|..] == name
    ensures |name| < |url| ==> url[|url| - |name| - 1] == '/'
    ensures '/' !in url ==> name == url
  {
    var tokens := Split(url, '/');
    var last := tokens[|tokens| - 1];
    assert last in tokens;
    if |tokens| >= 2 then
      JoinLast(tokens, '/');
      last
    else
      last
  }
}
