/** The string operations AddStock applies to the symbol typed by the user:
    string.IsNullOrWhiteSpace, ToUpper and Trim, over the ASCII range. */
module Text {

  /** char.IsWhiteSpace on ASCII: space, tab, line feed, vertical tab, form
      feed and carriage return. */
  predicate IsWhiteSpace(c: char)
  {
    c == ' ' || '\t' <= c <= '\r'
  }

  /** string.IsNullOrWhiteSpace for a non-null string. */
  predicate IsBlank(s: string)
  {
    forall i :: 0 <= i < |s| ==> IsWhiteSpace(s[i])
  }

  predicate IsLowerAscii(c: char)
  {
    'a' <= c <= 'z'
  }

  function UpperChar(c: char): (u: char)
    ensures !IsLowerAscii(u)
    ensures IsWhiteSpace(u) <==> IsWhiteSpace(c)
  {
    if IsLowerAscii(c) then (c as int - 32) as char else c
  }

  /** ToUpper: every lower-case ASCII letter replaced by its capital. */
  function ToUpper(s: string): (u: string)
    ensures |u| == |s|
    ensures forall i :: 0 <= i < |s| ==> u[i] == UpperChar(s[i])
  {
    seq(|s|, i requires 0 <= i < |s| => UpperChar(s[i]))
  }

  function TrimStart(s: string): string
  {
    if |s| > 0 && IsWhiteSpace(s[0]) then TrimStart(s[1..]) else s
  }

  function TrimEnd(s: string): string
  {
    if |s| > 0 && IsWhiteSpace(s[|s| - 1]) then TrimEnd(s[..|s| - 1]) else s
  }

  /** Trim: leading and trailing white space removed. */
  function Trim(s: string): string
  {
    TrimEnd(TrimStart(s))
  }

  /** The symbol AddStock looks up and adds: NewStockSymbol.ToUpper().Trim(). */
  function NormaliseSymbol(input: string): string
  {
    Trim(ToUpper(input))
  }

  /** TrimStart drops a white prefix and stops at the first other character. */
  lemma {:induction false} TrimStartSpec(s: string)
    ensures var t := TrimStart(s);
      |t| <= |s| && t == s[|s| - |t|..] && IsBlank(s[..|s| - |t|]) && (|t| > 0 ==> !IsWhiteSpace(t[0]))
    decreases |s|
  {
    if |s| > 0 && IsWhiteSpace(s[0]) {
      var t := TrimStart(s[1..]);
      TrimStartSpec(s[1..]);
      var i := |s| - |t|;
      assert s[1..][i - 1..] == s[i..];
      forall k | 0 <= k < i
        ensures IsWhiteSpace(s[k])
      {
        if k > 0 {
          assert s[k] == s[1..][..i - 1][k - 1];
        }
      }
    }
  }

  /** TrimEnd drops a white suffix and stops at the last other character. */
  lemma {:induction false} TrimEndSpec(s: string)
    ensures var t := TrimEnd(s);
      |t| <= |s| && t == s[..|t|] && IsBlank(s[|t|..]) && (|t| > 0 ==> !IsWhiteSpace(t[|t| - 1]))
    decreases |s|
  {
    if |s| > 0 && IsWhiteSpace(s[|s| - 1]) {
      var p := s[..|s| - 1];
      var t := TrimEnd(p);
      TrimEndSpec(p);
      assert p[..|t|] == s[..|t|];
      forall k | |t| <= k < |s|
        ensures IsWhiteSpace(s[k])
      {
        if k < |p| {
          assert s[k] == p[|t|..][k - |t|];
        }
      }
    }
  }

  /** Trim removes exactly a white prefix and a white suffix: the result is
      the part of the input from i to j, which neither starts nor ends with
      white space, and everything outside it is white. */
  lemma TrimSpec(s: string)
    ensures var t, i := Trim(s), |s| - |TrimStart(s)|;
      0 <= i <= i + |t| <= |s| && t == s[i..i + |t|] && IsBlank(s[..i]) && IsBlank(s[i + |t|..])
      && (|t| > 0 ==> !IsWhiteSpace(t[0]) && !IsWhiteSpace(t[|t| - 1]))
  {
    var u := TrimStart(s);
    var t := TrimEnd(u);
    TrimStartSpec(s);
    TrimEndSpec(u);
    var i := |s| - |u|;
    var j := i + |t|;
    assert t == s[i..j];
    forall k | j <= k < |s|
      ensures IsWhiteSpace(s[k])
    {
      assert s[k] == u[|t|..][k - j];
    }
  }

  /** A string is blank exactly when trimming leaves nothing. */
  lemma BlankIffTrimmedEmpty(s: string)
    ensures IsBlank(s) <==> Trim(s) == []
  {
    TrimSpec(s);
    var t, i := Trim(s), |s| - |TrimStart(s)|;
    if t == [] {
      forall k | 0 <= k < |s|
        ensures IsWhiteSpace(s[k])
      {
        if k < i {
          assert s[..i][k] == s[k];
        } else {
          assert s[i..][k - i] == s[k];
        }
      }
    } else {
      assert !IsWhiteSpace(s[i]);
    }
  }

  /** A symbol that passes the blank check normalises to a non-empty symbol
      with no lower-case letter and no white space at either end. */
  lemma NormalisedSymbol(input: string)
    requires !IsBlank(input)
    ensures var symbol := NormaliseSymbol(input);
      |symbol| > 0
      && (forall k :: 0 <= k < |symbol| ==> !IsLowerAscii(symbol[k]))
      && !IsWhiteSpace(symbol[0]) && !IsWhiteSpace(symbol[|symbol| - 1])
  {
    var u := ToUpper(input);
    assert !IsBlank(u) by {
      var k :| 0 <= k < |input| && !IsWhiteSpace(input[k]);
      assert !IsWhiteSpace(u[k]);
    }
    BlankIffTrimmedEmpty(u);
    TrimSpec(u);
    var t, i := Trim(u), |u| - |TrimStart(u)|;
    forall k | 0 <= k < |t|
      ensures !IsLowerAscii(t[k])
    {
      assert t[k] == u[i + k];
    }
  }
}
