/**
 * The string operations the analyzer relies on: whitespace stripping,
 * lower-casing, substring search, double-quote escaping and joining lines.
 * Strings are sequences of characters.
 */
module Text {

  /** The characters Python's `str.isspace` accepts, i.e. what `str.strip()` removes. */
  predicate IsSpace(c: char) {
    ('\t' <= c <= '\r') || ('\U{1C}' <= c <= '\U{1F}') || c == ' '
    || c == '\U{85}' || c == '\U{A0}' || c == '\U{1680}'
    || ('\U{2000}' <= c <= '\U{200A}') || c == '\U{2028}' || c == '\U{2029}'
    || c == '\U{202F}' || c == '\U{205F}' || c == '\U{3000}'
  }

  /** `s` without its leading whitespace. */
  function TrimStart(s: string): (r: string)
    ensures |r| <= |s| && r == s[|s| - |r|..]
    ensures r == [] || !IsSpace(r[0])
    ensures forall i :: 0 <= i < |s| - |r| ==> IsSpace(s[i])
  {
    if s != [] && IsSpace(s[0]) then TrimStart(s[1..]) else s
  }

  /** `s` without its trailing whitespace. */
  function TrimEnd(s: string): (r: string)
    ensures |r| <= |s| && r == s[..|r|]
    ensures r == [] || !IsSpace(r[|r| - 1])
    ensures forall i :: |r| <= i < |s| ==> IsSpace(s[i])
  {
    if s != [] && IsSpace(s[|s| - 1]) then TrimEnd(s[..|s| - 1]) else s
  }

  /** Python's `str.strip()`: the longest slice of `s` that neither starts nor ends with whitespace. */
  function Strip(s: string): (r: string)
    ensures r == [] || (!IsSpace(r[0]) && !IsSpace(r[|r| - 1]))
    ensures exists i :: OccursAt(s, r, i)
                        && (forall j :: 0 <= j < i ==> IsSpace(s[j]))
                        && (forall j :: i + |r| <= j < |s| ==> IsSpace(s[j]))
  {
    var t := TrimStart(s);
    var r := TrimEnd(t);
    assert OccursAt(s, r, |s| - |t|);
    r
  }

  /** `suffix` ends `s`. */
  predicate EndsWith(s: string, suffix: string) {
    |suffix| <= |s| && s[|s| - |suffix|..] == suffix
  }

  /** Python's `str.removeprefix`. */
  function RemovePrefix(s: string, prefix: string): (r: string)
    ensures prefix <= s ==> prefix + r == s
    ensures !(prefix <= s) ==> r == s
  {
    if prefix <= s then s[|prefix|..] else s
  }

  /** Python's `str.removesuffix`. */
  function RemoveSuffix(s: string, suffix: string): (r: string)
    ensures EndsWith(s, suffix) ==> r + suffix == s
    ensures !EndsWith(s, suffix) ==> r == s
  {
    if EndsWith(s, suffix) then s[..|s| - |suffix|] else s
  }

  /** Lower-casing of one character; only the ASCII letters A-Z change. */
  function LowerChar(c: char): (r: char)
    ensures 'A' <= c <= 'Z' ==> 'a' <= r <= 'z' && r as int == c as int + 32
    ensures !('A' <= c <= 'Z') ==> r == c
  {
    if 'A' <= c <= 'Z' then (c as int + 32) as char else c
  }

  /** Python's `str.lower`, restricted to ASCII letters. */
  function Lower(s: string): (r: string)
    ensures |r| == |s|
    ensures forall i :: 0 <= i < |s| ==> r[i] == LowerChar(s[i])
  {
    seq(|s|, i requires 0 <= i < |s| => LowerChar(s[i]))
  }

  /** Text without upper-case ASCII letters is its own lower-case form. */
  lemma LowerOfLower(s: string)
    requires forall c :: c in s ==> !('A' <= c <= 'Z')
    ensures Lower(s) == s
  {
    assert forall i :: 0 <= i < |s| ==> s[i] in s;
  }

  /** Python's `w in s` on strings: `w` occurs somewhere in `s`. */
  predicate Contains(s: string, w: string)
    decreases |s|
  {
    w <= s || (s != [] && Contains(s[1..], w))
  }

  /** Occurs-at: the plain definition of a substring occurrence. */
  predicate OccursAt(s: string, w: string, i: int) {
    0 <= i && i + |w| <= |s| && s[i..i + |w|] == w
  }

  lemma {:induction false} ContainsFindsOccurrence(s: string, w: string)
    requires Contains(s, w)
    ensures exists i :: OccursAt(s, w, i)
    decreases |s|
  {
    if w <= s {
      assert OccursAt(s, w, 0);
    } else {
      ContainsFindsOccurrence(s[1..], w);
      var i :| OccursAt(s[1..], w, i);
      assert s[1..][i..i + |w|] == s[i + 1..i + 1 + |w|];
      assert OccursAt(s, w, i + 1);
    }
  }

  lemma {:induction false} OccurrenceIsContained(s: string, w: string, i: int)
    requires OccursAt(s, w, i)
    ensures Contains(s, w)
    decreases i
  {
    if i == 0 {
      assert w <= s;
    } else {
      assert s[1..][i - 1..i - 1 + |w|] == s[i..i + |w|];
      OccurrenceIsContained(s[1..], w, i - 1);
    }
  }

  /** `Contains` agrees with the definition by occurrence: both directions. */
  lemma ContainsIffOccurs(s: string, w: string)
    ensures Contains(s, w) <==> exists i :: OccursAt(s, w, i)
  {
    if Contains(s, w) {
      ContainsFindsOccurrence(s, w);
    }
    if exists i :: OccursAt(s, w, i) {
      var i :| OccursAt(s, w, i);
      OccurrenceIsContained(s, w, i);
    }
  }

  lemma {:induction false} ContainsExtendLeft(p: string, s: string, w: string)
    requires Contains(s, w)
    ensures Contains(p + s, w)
    decreases |p|
  {
    if p == [] {
      assert p + s == s;
    } else {
      assert (p + s)[1..] == p[1..] + s;
      ContainsExtendLeft(p[1..], s, w);
    }
  }

  lemma {:induction false} ContainsExtendRight(s: string, t: string, w: string)
    requires Contains(s, w)
    ensures Contains(s + t, w)
    decreases |s|
  {
    if w <= s {
      assert w <= s + t;
    } else {
      assert (s + t)[1..] == s[1..] + t;
      ContainsExtendRight(s[1..], t, w);
    }
  }

  /** Python's `s.replace('"', '\\"')`: a backslash in front of every double quote. */
  function Escape(s: string): (r: string)
    ensures |r| >= |s|
    ensures forall i :: 0 <= i < |r| && r[i] == '"' ==> 0 < i && r[i - 1] == '\\'
  {
    if s == [] then []
    else (if s[0] == '"' then "\\\"" else [s[0]]) + Escape(s[1..])
  }

  /** The inverse of `Escape`: every backslash-quote pair becomes a quote. */
  function Unescape(s: string): string {
    if |s| >= 2 && s[0] == '\\' && s[1] == '"' then "\"" + Unescape(s[2..])
    else if s == [] then []
    else [s[0]] + Unescape(s[1..])
  }

  /** Escaping loses nothing: the escaped text determines the original. */
  lemma {:induction false} UnescapeEscape(s: string)
    ensures Unescape(Escape(s)) == s
  {
    if s != [] {
      var e := Escape(s[1..]);
      UnescapeEscape(s[1..]);
      if s[0] == '"' {
        assert Escape(s) == "\\\"" + e;
        assert (("\\\"" + e)[2..]) == e;
      } else {
        assert Escape(s) == [s[0]] + e;
        assert e != [] ==> e[0] != '"';
        assert ([s[0]] + e)[1..] == e;
      }
    }
  }

  /** Lower-casing commutes with escaping: it never creates or removes a quote or backslash. */
  lemma {:induction false} LowerEscape(s: string)
    ensures Lower(Escape(s)) == Escape(Lower(s))
  {
    if s != [] {
      LowerEscape(s[1..]);
      var head := if s[0] == '"' then "\\\"" else [s[0]];
      var lowered := Lower(s);
      assert Escape(s) == head + Escape(s[1..]);
      LowerConcat(head, Escape(s[1..]));
      assert lowered[0] == LowerChar(s[0]);
      assert lowered[1..] == Lower(s[1..]);
      assert Escape(lowered) == (if lowered[0] == '"' then "\\\"" else [lowered[0]]) + Escape(lowered[1..]);
      assert Lower(head) == (if lowered[0] == '"' then "\\\"" else [lowered[0]]);
    }
  }

  lemma LowerConcat(a: string, b: string)
    ensures Lower(a + b) == Lower(a) + Lower(b)
  {
    assert forall i :: 0 <= i < |a + b| ==> Lower(a + b)[i] == (Lower(a) + Lower(b))[i];
  }

  /** A word free of quotes and backslashes: escaping cannot split or create an occurrence of it. */
  predicate Plain(w: string) {
    '"' !in w && '\\' !in w
  }

  lemma {:induction false} PrefixEscape(w: string, u: string)
    requires Plain(w)
    ensures w <= Escape(u) <==> w <= u
    decreases |u|
  {
    if w != [] && u != [] {
      assert w[0] in w;
      if u[0] == '"' {
        assert Escape(u)[0] == '\\';
      } else {
        assert Escape(u) == [u[0]] + Escape(u[1..]);
        assert w[1..] in [w[1..]];
        assert forall c :: c in w[1..] ==> c in w;
        PrefixEscape(w[1..], u[1..]);
      }
    }
  }

  /** A plain, non-empty word occurs in the escaped text exactly when it occurs in the text. */
  lemma {:induction false} ContainsEscape(u: string, w: string)
    requires w != [] && Plain(w)
    ensures Contains(Escape(u), w) <==> Contains(u, w)
    decreases |u|
  {
    if u != [] {
      assert w[0] in w;
      ContainsEscape(u[1..], w);
      var e := Escape(u[1..]);
      if u[0] == '"' {
        assert Escape(u) == "\\\"" + e;
        assert !(w <= Escape(u));
        assert Escape(u)[1..] == "\"" + e;
        assert !(w <= Escape(u)[1..]);
        assert Escape(u)[1..][1..] == e;
        assert !(w <= u);
      } else {
        PrefixEscape(w, u);
        assert Escape(u) == [u[0]] + e;
        assert Escape(u)[1..] == e;
      }
    }
  }

  /** Python's `sep.join(lines)`. */
  function Join(lines: seq<string>, sep: string): string {
    if |lines| == 0 then ""
    else if |lines| == 1 then lines[0]
    else lines[0] + sep + Join(lines[1..], sep)
  }

  /** Every joined line can be found in the joined text. */
  lemma {:induction false} JoinContains(lines: seq<string>, sep: string, i: int)
    requires 0 <= i < |lines|
    ensures Contains(Join(lines, sep), lines[i])
    decreases |lines|
  {
    if |lines| == 1 {
      assert lines[0] <= Join(lines, sep);
    } else if i == 0 {
      assert lines[0] <= Join(lines, sep);
    } else {
      JoinContains(lines[1..], sep, i - 1);
      ContainsExtendLeft(lines[0] + sep, Join(lines[1..], sep), lines[i]);
    }
  }
}
