/** The string operations the controllers and the schema setters use:
    JavaScript's `trim`, `toLowerCase`, substring tests and the
    `split(' ')[1]` of the Authorization header. */
module Text {
  import opened Common

  /** The characters JavaScript's `trim` removes and `\s` matches: the
      WhiteSpace and LineTerminator productions of ECMAScript. */
  predicate IsSpace(c: char)
  {
    var n := c as int;
    || n == 0x20 || (0x09 <= n <= 0x0D)              // space, tab, LF, VT, FF, CR
    || n == 0xA0 || n == 0x1680 || (0x2000 <= n <= 0x200A)
    || n == 0x2028 || n == 0x2029 || n == 0x202F || n == 0x205F
    || n == 0x3000 || n == 0xFEFF
  }

  predicate AllSpace(s: string)
  {
    forall i :: 0 <= i < |s| ==> IsSpace(s[i])
  }

  /** Drops leading white space (`TrimStartShape` states what it keeps). */
  function TrimStart(s: string): string
    decreases |s|
  {
    if s != [] && IsSpace(s[0]) then TrimStart(s[1..]) else s
  }

  /** Drops trailing white space (`TrimEndShape` states what it keeps). */
  function TrimEnd(s: string): string
    decreases |s|
  {
    if s != [] && IsSpace(s[|s| - 1]) then TrimEnd(s[..|s| - 1]) else s
  }

  /** `TrimStart` keeps a suffix of `s`, everything it drops is white space,
      and what it keeps does not start with white space. */
  lemma {:induction false} TrimStartShape(s: string)
    ensures var r := TrimStart(s);
      && |r| <= |s| && r == s[|s| - |r|..]
      && AllSpace(s[..|s| - |r|])
      && (r != [] ==> !IsSpace(r[0]))
    decreases |s|
  {
    if s != [] && IsSpace(s[0]) {
      var t := s[1..];
      TrimStartShape(t);
      var r := TrimStart(t);
      assert s[|s| - |r|..] == t[|t| - |r|..];
      var d, e := s[..|s| - |r|], t[..|t| - |r|];
      forall i | 0 <= i < |d| ensures IsSpace(d[i]) {
        if i > 0 {
          assert d[i] == e[i - 1];
        }
      }
    }
  }

  /** `TrimEnd` keeps a prefix of `s`, everything it drops is white space,
      and what it keeps does not end with white space. */
  lemma {:induction false} TrimEndShape(s: string)
    ensures var r := TrimEnd(s);
      && |r| <= |s| && r == s[..|r|]
      && AllSpace(s[|r|..])
      && (r != [] ==> !IsSpace(r[|r| - 1]))
    decreases |s|
  {
    if s != [] && IsSpace(s[|s| - 1]) {
      var t := s[..|s| - 1];
      TrimEndShape(t);
      var r := TrimEnd(t);
      assert s[..|r|] == t[..|r|];
      var d, e := s[|r|..], t[|r|..];
      forall i | 0 <= i < |d| ensures IsSpace(d[i]) {
        if i < |e| {
          assert d[i] == e[i];
        }
      }
    }
  }

  /** `s.trim()` */
  function Trim(s: string): string
  {
    TrimEnd(TrimStart(s))
  }

  /** `s.trim()` keeps a contiguous middle part of `s`, removes only white
      space around it, and leaves no white space at either end. */
  lemma TrimShape(s: string)
    ensures var r := Trim(s);
      exists i :: OccursAt(s, r, i) && AllSpace(s[..i]) && AllSpace(s[i + |r|..])
    ensures Trim(s) != [] ==> !IsSpace(Trim(s)[0]) && !IsSpace(Trim(s)[|Trim(s)| - 1])
  {
    var t := TrimStart(s);
    TrimStartShape(s);
    var r := TrimEnd(t);
    TrimEndShape(t);
    var i := |s| - |t|;
    assert s[i..i + |r|] == t[..|r|];
    assert OccursAt(s, r, i);
    assert s[i + |r|..] == t[|r|..];
  }

  /** Trimming twice changes nothing. */
  lemma TrimIdempotent(s: string)
    ensures Trim(Trim(s)) == Trim(s)
  {
    var r := Trim(s);
    TrimShape(s);
    assert TrimStart(r) == r;
    assert TrimEnd(r) == r;
  }

  /** `!s.trim()` holds exactly when `s` is empty or all white space. */
  lemma TrimEmptyIffBlank(s: string)
    ensures Trim(s) == [] <==> AllSpace(s)
  {
    var t := TrimStart(s);
    TrimStartShape(s);
    TrimEndShape(t);
    var k := |s| - |t|;
    if t != [] {
      assert t[0] == s[k];
    }
    if Trim(s) == [] {
      assert AllSpace(t[0..]);
      forall i | 0 <= i < |s| ensures IsSpace(s[i]) {
        assert s[..k][i] == s[i];
      }
    }
  }

  /** The lower-case counterpart of an ASCII capital; every other character is kept. */
  function LowerChar(c: char): char
  {
    if 'A' <= c <= 'Z' then (c as int + 32) as char else c
  }

  /** `s.toLowerCase()`, for the ASCII letters. */
  function ToLower(s: string): (r: string)
    ensures |r| == |s|
    ensures forall i :: 0 <= i < |s| ==> r[i] == LowerChar(s[i])
  {
    seq(|s|, i requires 0 <= i < |s| => LowerChar(s[i]))
  }

  /** A lower-cased string has no capitals left, so lower-casing again changes nothing. */
  lemma ToLowerIdempotent(s: string)
    ensures ToLower(ToLower(s)) == ToLower(s)
    ensures forall i :: 0 <= i < |s| ==> !('A' <= ToLower(s)[i] <= 'Z')
  {
  }

  predicate IsPrefix(t: string, s: string)
  {
    |t| <= |s| && s[..|t|] == t
  }

  /** `s.includes(t)`, which is also what an unanchored regular expression
      made of the single literal `t` tests. */
  predicate Contains(s: string, t: string)
    decreases |s|
  {
    IsPrefix(t, s) || (s != [] && Contains(s[1..], t))
  }

  /** A copy of `t` starts at position `i` of `s`. */
  predicate OccursAt(s: string, t: string, i: int)
  {
    0 <= i <= |s| - |t| && s[i..i + |t|] == t
  }

  /** `t` occurs in `s` exactly when some position of `s` starts a copy of it. */
  lemma {:induction false} ContainsIffOccurs(s: string, t: string)
    ensures Contains(s, t) <==> exists i :: OccursAt(s, t, i)
    decreases |s|
  {
    if IsPrefix(t, s) {
      assert OccursAt(s, t, 0);
    } else {
      assert !OccursAt(s, t, 0);
      if s != [] {
        ContainsIffOccurs(s[1..], t);
        forall i | OccursAt(s[1..], t, i) ensures OccursAt(s, t, i + 1) {
          assert s[i + 1..i + 1 + |t|] == s[1..][i..i + |t|];
        }
        forall i | OccursAt(s, t, i) ensures OccursAt(s[1..], t, i - 1) {
          assert s[1..][i - 1..i - 1 + |t|] == s[i..i + |t|];
        }
      } else {
        assert forall i :: !OccursAt(s, t, i);
      }
    }
  }

  /** A string lacking the first character of `t` does not contain `t`. */
  lemma {:induction false} FirstCharAbsent(s: string, t: string)
    requires t != [] && t[0] !in s
    ensures !Contains(s, t)
    decreases |s|
  {
    if s != [] {
      assert !IsPrefix(t, s) by {
        if |t| <= |s| {
          assert s[..|t|][0] == s[0];
        }
      }
      assert s == [s[0]] + s[1..];
      FirstCharAbsent(s[1..], t);
    }
  }

  /** The index of the first occurrence of `c` in `s`. */
  function IndexOf(s: string, c: char): (r: Option<nat>)
    ensures r.Some? ==> r.value < |s| && s[r.value] == c && forall j :: 0 <= j < r.value ==> s[j] != c
    ensures r.None? ==> forall j :: 0 <= j < |s| ==> s[j] != c
    decreases |s|
  {
    if s == [] then None
    else if s[0] == c then Some(0)
    else match IndexOf(s[1..], c)
      case None => None
      case Some(k) => Some(k + 1)
  }

  /** `s.split(' ')[0]`: everything before the first space. */
  function FirstField(s: string): (r: string)
    ensures IsPrefix(r, s) && ' ' !in r
    ensures |r| < |s| ==> s[|r|] == ' '
  {
    match IndexOf(s, ' ')
    case None => s
    case Some(k) => s[..k]
  }

  /** `s.split(' ')[1]`: present exactly when `s` contains a space, and then the
      text between the first space and the next one (or the end). */
  function SecondField(s: string): (r: Option<string>)
    ensures r.None? <==> ' ' !in s
  {
    match IndexOf(s, ' ')
    case None => None
    case Some(k) => Some(FirstField(s[k + 1..]))
  }

  /** The header `"<scheme> <token>"` yields `<token>` when neither part holds a space. */
  lemma SecondFieldOfPair(scheme: string, token: string)
    requires ' ' !in scheme && ' ' !in token
    ensures SecondField(scheme + " " + token) == Some(token)
  {
    var s := scheme + " " + token;
    assert s[|scheme|] == ' ';
    assert forall j :: 0 <= j < |scheme| ==> s[j] == scheme[j];
    var k := IndexOf(s, ' ').value;
    assert k == |scheme|;
    assert s[k + 1..] == token;
  }
}
