/** String operations of JavaScript that the source relies on, stated over `seq<char>`. */
module Text {

  /** `toLowerCase` restricted to the ASCII range. */
  function LowerChar(c: char): char {
    if 'A' <= c <= 'Z' then (c as int + 32) as char else c
  }

  function Lower(s: string): string {
    seq(|s|, i requires 0 <= i < |s| => LowerChar(s[i]))
  }

  predicate OccursAt(s: string, t: string, i: nat) {
    i + |t| <= |s| && s[i..i + |t|] == t
  }

  /** `s.includes(t)`: `t` occurs somewhere in `s`. */
  predicate Includes(s: string, t: string) {
    exists i | 0 <= i <= |s| :: OccursAt(s, t, i)
  }

  lemma IncludesEmpty(s: string)
    ensures Includes(s, "")
  {
    assert OccursAt(s, "", 0);
  }

  // ---------------------------------------------------------------------------
  // Join and split

  /** `parts.join(sep)`. */
  function Join(sep: string, parts: seq<string>): string {
    if |parts| == 0 then ""
    else if |parts| == 1 then parts[0]
    else parts[0] + sep + Join(sep, parts[1..])
  }

  function TotalLength(parts: seq<string>): nat {
    if parts == [] then 0 else |parts[0]| + TotalLength(parts[1..])
  }

  /** Appending one part adds exactly one separator, between the old last part and the new one. */
  lemma {:induction false} JoinSnoc(sep: string, parts: seq<string>, p: string)
    requires |parts| >= 1
    ensures Join(sep, parts + [p]) == Join(sep, parts) + sep + p
  {
    if |parts| == 1 {
      assert (parts + [p])[1..] == [p];
    } else {
      assert (parts + [p])[1..] == parts[1..] + [p];
      JoinSnoc(sep, parts[1..], p);
    }
  }

  /** A join of n parts is their total length plus exactly n - 1 separators. */
  lemma {:induction false} JoinLength(sep: string, parts: seq<string>)
    requires |parts| >= 1
    ensures |Join(sep, parts)| == TotalLength(parts) + (|parts| - 1) * |sep|
  {
    if |parts| > 1 {
      JoinLength(sep, parts[1..]);
    }
  }

  /** `s.split(d)` for a one-character separator: always at least one piece, possibly empty. */
  function Split(s: string, d: char): (pieces: seq<string>)
    ensures |pieces| >= 1
    ensures forall k :: 0 <= k < |pieces| ==> d !in pieces[k]
  {
    if s == [] then [""]
    else
      var rest := Split(s[1..], d);
      if s[0] == d then [""] + rest
      else [[s[0]] + rest[0]] + rest[1..]
  }

  function Count(s: string, d: char): nat {
    if s == [] then 0 else (if s[0] == d then 1 else 0) + Count(s[1..], d)
  }

  /** Splitting yields one more piece than there are separators. */
  lemma {:induction false} SplitCount(s: string, d: char)
    ensures |Split(s, d)| == Count(s, d) + 1
  {
    if s != [] {
      SplitCount(s[1..], d);
    }
  }

  /** Joining the pieces back with the separator gives the original string. */
  lemma {:induction false} SplitJoin(s: string, d: char)
    ensures Join([d], Split(s, d)) == s
  {
    if s != [] {
      var rest := Split(s[1..], d);
      SplitJoin(s[1..], d);
      if s[0] == d {
        assert ([""] + rest)[1..] == rest;
      } else if |rest| > 1 {
        var p := [[s[0]] + rest[0]] + rest[1..];
        assert p[1..] == rest[1..];
        assert Join([d], rest) == rest[0] + [d] + Join([d], rest[1..]);
      }
    }
  }

  // ---------------------------------------------------------------------------
  // trim

  /** The characters `String.prototype.trim` removes: ECMAScript WhiteSpace and LineTerminator. */
  predicate IsJsWhitespace(c: char) {
    || c == '\t' || c == '\U{000B}' || c == '\U{000C}' || c == ' ' || c == '\U{00A0}' || c == '\U{FEFF}'
    || c == '\n' || c == '\r' || c == '\U{2028}' || c == '\U{2029}'
    || c == '\U{1680}' || ('\U{2000}' <= c <= '\U{200A}') || c == '\U{202F}' || c == '\U{205F}' || c == '\U{3000}'
  }

  function TrimStart(s: string): string {
    if |s| > 0 && IsJsWhitespace(s[0]) then TrimStart(s[1..]) else s
  }

  function TrimEnd(s: string): string {
    if |s| > 0 && IsJsWhitespace(s[|s| - 1]) then TrimEnd(s[..|s| - 1]) else s
  }

  function Trim(s: string): string {
    TrimEnd(TrimStart(s))
  }

  predicate AllWhitespace(s: string) {
    forall i :: 0 <= i < |s| ==> IsJsWhitespace(s[i])
  }

  lemma {:induction false} TrimStartEmpty(s: string)
    ensures TrimStart(s) == "" <==> AllWhitespace(s)
    ensures TrimStart(s) != "" ==> !IsJsWhitespace(TrimStart(s)[0])
  {
    if |s| > 0 && IsJsWhitespace(s[0]) {
      TrimStartEmpty(s[1..]);
      assert AllWhitespace(s) <==> AllWhitespace(s[1..]) by {
        if AllWhitespace(s[1..]) {
          forall i | 0 <= i < |s| ensures IsJsWhitespace(s[i]) {
            if i > 0 { assert s[i] == s[1..][i - 1]; }
          }
        }
      }
    }
  }

  lemma {:induction false} TrimEndEmpty(s: string)
    ensures TrimEnd(s) == "" <==> AllWhitespace(s)
  {
    if |s| > 0 && IsJsWhitespace(s[|s| - 1]) {
      var p := s[..|s| - 1];
      TrimEndEmpty(p);
      assert AllWhitespace(s) <==> AllWhitespace(p) by {
        if AllWhitespace(p) {
          forall i | 0 <= i < |s| ensures IsJsWhitespace(s[i]) {
            if i < |s| - 1 { assert s[i] == p[i]; }
          }
        }
      }
    }
  }

  /** `s.trim() === ""` exactly when every character of `s` is whitespace. */
  lemma TrimEmptyIffBlank(s: string)
    ensures Trim(s) == "" <==> AllWhitespace(s)
  {
    TrimStartEmpty(s);
    TrimEndEmpty(TrimStart(s));
    var t := TrimStart(s);
    if t != "" {
      assert !AllWhitespace(t) by { assert !IsJsWhitespace(t[0]); }
    }
  }
}
