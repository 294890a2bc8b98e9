/** The two JavaScript string operations the routes depend on:
    `String.prototype.trim` and `String.prototype.split` with a one-character
    separator and no limit. */
module JsString {

  /** ECMAScript WhiteSpace and LineTerminator code points, which `trim`
      removes from both ends. */
  predicate IsWhitespace(c: char) {
    || c == '\t' || c == '\n' || c == '\U{000B}' || c == '\U{000C}' || c == '\r'
    || c == ' ' || c == '\U{00A0}' || c == '\U{1680}'
    || ('\U{2000}' <= c <= '\U{200A}')
    || c == '\U{2028}' || c == '\U{2029}' || c == '\U{202F}' || c == '\U{205F}'
    || c == '\U{3000}' || c == '\U{FEFF}'
  }

  predicate AllWhitespace(s: string) {
    forall i :: 0 <= i < |s| ==> IsWhitespace(s[i])
  }

  /** Neither end of `s` is whitespace (vacuous for the empty string). */
  predicate Tight(s: string) {
    s == [] || (!IsWhitespace(s[0]) && !IsWhitespace(s[|s| - 1]))
  }

  function TrimStart(s: string): (r: string)
    ensures |r| <= |s| && r == s[|s| - |r|..]
    ensures AllWhitespace(s[..|s| - |r|])
    ensures r == [] || !IsWhitespace(r[0])
  {
    if |s| > 0 && IsWhitespace(s[0]) then
      var r := TrimStart(s[1..]);
      assert s[..|s| - |r|] == [s[0]] + s[1..][..|s[1..]| - |r|];
      r
    else s
  }

  function TrimEnd(s: string): (r: string)
    ensures |r| <= |s| && r == s[..|r|]
    ensures AllWhitespace(s[|r|..])
    ensures r == [] || !IsWhitespace(r[|r| - 1])
  {
    if |s| > 0 && IsWhitespace(s[|s| - 1]) then
      var r := TrimEnd(s[..|s| - 1]);
      assert s[|r|..] == s[..|s| - 1][|r|..] + [s[|s| - 1]];
      r
    else s
  }

  /** `s.trim()`. */
  function Trim(s: string): (r: string)
    ensures Tight(r)
  {
    var t := TrimStart(s);
    var r := TrimEnd(t);
    assert r == [] || r[0] == t[0];
    r
  }

  lemma {:induction false} TrimStartSkips(lead: string, body: string)
    requires AllWhitespace(lead)
    requires body == [] || !IsWhitespace(body[0])
    ensures TrimStart(lead + body) == body
    decreases |lead|
  {
    if lead == [] {
      assert lead + body == body;
    } else {
      assert (lead + body)[1..] == lead[1..] + body;
      TrimStartSkips(lead[1..], body);
    }
  }

  lemma {:induction false} TrimEndSkips(body: string, trail: string)
    requires AllWhitespace(trail)
    requires body == [] || !IsWhitespace(body[|body| - 1])
    ensures TrimEnd(body + trail) == body
    decreases |trail|
  {
    if trail == [] {
      assert body + trail == body;
    } else {
      var s := body + trail;
      assert s[..|s| - 1] == body + trail[..|trail| - 1];
      TrimEndSkips(body, trail[..|trail| - 1]);
    }
  }

  /** `trim` is characterised uniquely: whenever `s` is whitespace, then a
      body with no whitespace at either end, then whitespace, the trimmed
      string is that body. */
  lemma TrimOf(lead: string, body: string, trail: string)
    requires AllWhitespace(lead) && AllWhitespace(trail) && Tight(body)
    ensures Trim(lead + body + trail) == body
  {
    if body == [] {
      assert lead + body + trail == lead + trail;
      TrimStartSkips(lead + trail, []);
      assert lead + trail + [] == lead + trail;
      TrimEndSkips([], []);
    } else {
      assert lead + body + trail == lead + (body + trail);
      TrimStartSkips(lead, body + trail);
      TrimEndSkips(body, trail);
    }
  }

  /** A string trims to the empty string exactly when it is all whitespace. */
  lemma BlankIffWhitespace(s: string)
    ensures Trim(s) == "" <==> AllWhitespace(s)
  {
    var t := TrimStart(s);
    if AllWhitespace(s) {
      TrimStartSkips(s, []);
      assert s + [] == s;
    }
    if Trim(s) == "" {
      // the remainder after leading whitespace starts with a non-blank
      // character, so it can only trim to nothing if it is empty
      assert t[|TrimEnd(t)|..] == t;
      assert t == [];
      assert s[..|s| - |t|] == s;
    }
  }

  lemma TrimIdempotent(s: string)
    ensures Trim(Trim(s)) == Trim(s)
  {
    var r := Trim(s);
    TrimOf([], r, []);
    assert [] + r + [] == r;
  }

  /** `s.split(sep)`: the pieces between separators, always at least one. */
  function Split(s: string, sep: char): (parts: seq<string>)
    ensures |parts| >= 1
  {
    if s == [] then [[]]
    else
      var rest := Split(s[1..], sep);
      if s[0] == sep then [[]] + rest
      else [[s[0]] + rest[0]] + rest[1..]
  }

  /** `parts.join(sep)`, the inverse of `Split`. */
  function Join(parts: seq<string>, sep: char): string
    requires |parts| >= 1
  {
    if |parts| == 1 then parts[0] else parts[0] + [sep] + Join(parts[1..], sep)
  }

  lemma {:induction false} JoinSplit(s: string, sep: char)
    ensures Join(Split(s, sep), sep) == s
  {
    if s != [] {
      var rest := Split(s[1..], sep);
      JoinSplit(s[1..], sep);
      if s[0] != sep {
        var parts := Split(s, sep);
        if |rest| == 1 {
          assert Join(parts, sep) == [s[0]] + rest[0];
        } else {
          assert parts[1..] == rest[1..];
          assert Join(rest, sep) == rest[0] + [sep] + Join(rest[1..], sep);
          assert Join(parts, sep) == [s[0]] + rest[0] + [sep] + Join(rest[1..], sep);
        }
        assert s == [s[0]] + s[1..];
      } else {
        assert s == [sep] + s[1..];
      }
    }
  }

  lemma {:induction false} SplitPiecesAvoidSeparator(s: string, sep: char)
    ensures forall k :: 0 <= k < |Split(s, sep)| ==> sep !in Split(s, sep)[k]
  {
    if s != [] {
      SplitPiecesAvoidSeparator(s[1..], sep);
      var rest := Split(s[1..], sep);
      if s[0] != sep {
        assert sep !in rest[0];
        assert sep !in [s[0]] + rest[0];
      }
    }
  }

  lemma {:induction false} SplitAfterWord(w: string, x: string, sep: char)
    requires sep !in w
    ensures Split(w + [sep] + x, sep) == [w] + Split(x, sep)
    decreases |w|
  {
    if w == [] {
      assert w + [sep] + x == [sep] + x;
      assert ([sep] + x)[1..] == x;
    } else {
      var s := w + [sep] + x;
      assert s[1..] == w[1..] + [sep] + x;
      SplitAfterWord(w[1..], x, sep);
      assert [w[0]] + w[1..] == w;
    }
  }

  lemma {:induction false} SplitFirstWord(t: string, rest: string, sep: char)
    requires sep !in t
    requires rest == [] || rest[0] == sep
    ensures Split(t + rest, sep)[0] == t
    decreases |t|
  {
    if t == [] {
      assert t + rest == rest;
    } else {
      var s := t + rest;
      assert s[1..] == t[1..] + rest;
      SplitFirstWord(t[1..], rest, sep);
      assert [t[0]] + t[1..] == t;
    }
  }

  lemma {:induction false} SplitWithoutSeparator(s: string, sep: char)
    requires sep !in s
    ensures Split(s, sep) == [s]
  {
    if s != [] {
      SplitWithoutSeparator(s[1..], sep);
      assert [s[0]] + s[1..] == s;
    }
  }
}
