/**
 * The shape of the request URLs the client builds: a path, `?`, and
 * `name=value` parameters joined by `&`; and how a server reads the
 * parameters back (the text between the first `?` and the first `#`,
 * split at every `&`).
 */
module QueryString {

  /** `parts.join(sep)` as JavaScript's Array.prototype.join computes it. */
  function Join(parts: seq<string>, sep: string): string {
    if parts == [] then ""
    else if |parts| == 1 then parts[0]
    else parts[0] + sep + Join(parts[1..], sep)
  }

  /** `"&" + p` for every part, concatenated. */
  function AmpPrefixed(parts: seq<string>): (r: string)
    ensures parts == [] <==> r == []
  {
    if parts == [] then "" else "&" + parts[0] + AmpPrefixed(parts[1..])
  }

  function Param(name: string, value: string): string {
    name + "=" + value
  }

  lemma JoinThree(a: string, b: string, c: string)
    ensures Join([a, b, c], "&") == a + "&" + b + "&" + c
  {
    assert [a, b, c][1..] == [b, c];
    assert [b, c][1..] == [c];
    assert Join([c], "&") == c;
    assert Join([b, c], "&") == b + "&" + c;
  }

  /** Splitting at every occurrence of `c`; the result always has at least one piece. */
  function SplitOn(s: string, c: char): (r: seq<string>)
    ensures |r| >= 1
  {
    if s == [] then [""]
    else
      var rest := SplitOn(s[1..], c);
      if s[0] == c then [""] + rest else [[s[0]] + rest[0]] + rest[1..]
  }

  /** The text after the first `c`, or "" when there is none. */
  function After(s: string, c: char): string {
    if s == [] then "" else if s[0] == c then s[1..] else After(s[1..], c)
  }

  /** The text before the first `c`, or all of `s` when there is none. */
  function Before(s: string, c: char): (r: string)
    ensures |r| <= |s|
  {
    if s == [] then "" else if s[0] == c then "" else [s[0]] + Before(s[1..], c)
  }

  /** The parameters a server reads from `url`. */
  function QueryParams(url: string): seq<string> {
    SplitOn(Before(After(url, '?'), '#'), '&')
  }

  lemma {:induction false} SplitOnPlain(w: string, c: char)
    requires c !in w
    ensures SplitOn(w, c) == [w]
  {
    if w != [] {
      SplitOnPlain(w[1..], c);
      assert [w[0]] + w[1..] == w;
    }
  }

  lemma {:induction false} SplitOnPiece(w: string, c: char, tail: string)
    requires c !in w
    ensures SplitOn(w + [c] + tail, c) == [w] + SplitOn(tail, c)
  {
    if w == [] {
      assert w + [c] + tail == [c] + tail;
      assert ([c] + tail)[1..] == tail;
    } else {
      assert (w + [c] + tail)[1..] == w[1..] + [c] + tail;
      SplitOnPiece(w[1..], c, tail);
      assert [w[0]] + w[1..] == w;
    }
  }

  /** Splitting a join gives the parts back when no part holds the separator. */
  lemma {:induction false} SplitOnJoin(parts: seq<string>, c: char)
    requires |parts| >= 1
    requires forall i :: 0 <= i < |parts| ==> c !in parts[i]
    ensures SplitOn(Join(parts, [c]), c) == parts
  {
    if |parts| == 1 {
      SplitOnPlain(parts[0], c);
    } else {
      SplitOnJoin(parts[1..], c);
      SplitOnPiece(parts[0], c, Join(parts[1..], [c]));
      assert [parts[0]] + parts[1..] == parts;
    }
  }

  lemma {:induction false} AfterPlain(p: string, c: char, q: string)
    requires c !in p
    ensures After(p + [c] + q, c) == q
  {
    if p == [] {
      assert p + [c] + q == [c] + q;
      assert ([c] + q)[1..] == q;
    } else {
      assert (p + [c] + q)[1..] == p[1..] + [c] + q;
      AfterPlain(p[1..], c, q);
    }
  }

  lemma {:induction false} BeforeAbsent(s: string, c: char)
    requires c !in s
    ensures Before(s, c) == s
  {
    if s != [] {
      BeforeAbsent(s[1..], c);
    }
  }

  /** Cutting at `c` skips a prefix that does not hold `c`. */
  lemma {:induction false} BeforePrefix(x: string, c: char, y: string)
    requires c !in x
    ensures Before(x + y, c) == x + Before(y, c)
  {
    if x != [] {
      assert (x + y)[0] == x[0] && (x + y)[1..] == x[1..] + y;
      BeforePrefix(x[1..], c, y);
      assert [x[0]] + (x[1..] + Before(y, c)) == x + Before(y, c);
    } else {
      assert x + y == y;
    }
  }

  lemma {:induction false} JoinAbsent(parts: seq<string>, sep: char, c: char)
    requires c != sep
    requires forall i :: 0 <= i < |parts| ==> c !in parts[i]
    ensures c !in Join(parts, [sep])
  {
    if |parts| > 1 {
      JoinAbsent(parts[1..], sep, c);
    }
  }

  /** `&`-prefixing a non-empty list is `&` followed by its join. */
  lemma {:induction false} AmpPrefixedJoin(parts: seq<string>)
    requires parts != []
    ensures AmpPrefixed(parts) == "&" + Join(parts, "&")
  {
    if |parts| > 1 {
      AmpPrefixedJoin(parts[1..]);
    } else {
      assert parts[1..] == [];
    }
  }

  /** The joined form with a leading empty part is the `&`-prefixed form. */
  lemma JoinLeadingEmpty(parts: seq<string>)
    ensures Join([""] + parts, "&") == AmpPrefixed(parts)
  {
    if parts != [] {
      AmpPrefixedJoin(parts);
      assert ([""] + parts)[1..] == parts;
    }
  }

  /** Joining a longer list extends the join of its non-empty prefix. */
  lemma {:induction false} JoinAppend(ps: seq<string>, extra: seq<string>)
    requires ps != []
    ensures Join(ps + extra, "&") == Join(ps, "&") + AmpPrefixed(extra)
  {
    if extra == [] {
      assert ps + extra == ps;
    } else if |ps| == 1 {
      assert (ps + extra)[1..] == extra;
      AmpPrefixedJoin(extra);
    } else {
      assert (ps + extra)[1..] == ps[1..] + extra;
      JoinAppend(ps[1..], extra);
    }
  }

  /** A URL `path?p1&p2&...` whose path holds neither `?` nor `#` and whose
      parameters hold neither `&` nor `#` yields exactly its parameters. */
  lemma QueryParamsOf(path: string, params: seq<string>)
    requires '?' !in path && '#' !in path
    requires |params| >= 1
    requires forall i :: 0 <= i < |params| ==> '&' !in params[i] && '#' !in params[i]
    ensures QueryParams(path + "?" + Join(params, "&")) == params
  {
    var q := Join(params, "&");
    AfterPlain(path, '?', q);
    JoinAbsent(params, '&', '#');
    BeforeAbsent(q, '#');
    SplitOnJoin(params, '&');
  }
}
