// Stripping markdown escapes until nothing changes, and the single pass it amounts to.
module MarkdownEscapes {
  import opened Common

  predicate IsEscapable(c: char) {
    c == '[' || c == ']' || c == '`' || c == '_' || c == '*' || c == '\\'
  }

  /** Brackets, backtick, underscore, asterisk and the backslash itself can be escaped; other punctuation cannot. */
  lemma SixCharactersCanBeEscaped()
    ensures forall c | c in {'[', ']', '`', '_', '*', '\\'} :: Unescaped(['\\', c]) == [c]
    ensures forall c | c in {'(', ')', '#', '-', '+', '.', '!', '~', '>', '|', 'a', ' '} :: Unescaped(['\\', c]) == ['\\', c]
  {
    forall c: char
      ensures Unescaped(['\\', c]) == if IsEscapable(c) then [c] else ['\\', c]
    {
      var s := ['\\', c];
      assert s[1..] == [c] && [c][1..] == [];
      assert Unescaped([c]) == [c];
    }
  }

  predicate StartsWithEscape(s: string) {
    |s| >= 2 && s[0] == '\\' && IsEscapable(s[1])
  }

  /** One round: each escape pair, read from the left without overlap, gives way to its second character. */
  function Round(s: string): string {
    if s == [] then []
    else if StartsWithEscape(s) then [s[1]] + Round(s[2..])
    else [s[0]] + Round(s[1..])
  }

  /** The text without the backslashes that stand directly before an escapable character. */
  function Unescaped(s: string): string {
    if s == [] then []
    else if StartsWithEscape(s) then Unescaped(s[1..])
    else [s[0]] + Unescaped(s[1..])
  }

  predicate HasEscape(s: string) {
    exists i | 0 <= i < |s| :: StartsWithEscape(s[i..])
  }

  function WithoutBackslashes(s: string): string {
    if s == [] then []
    else if s[0] == '\\' then WithoutBackslashes(s[1..])
    else [s[0]] + WithoutBackslashes(s[1..])
  }

  method StripMdEscapes(text: string) returns (s: string)
    ensures s == Unescaped(text)
  {
    s := text;
    var prev: Option<string> := None;
    while prev != Some(s)
      invariant Unescaped(s) == Unescaped(text)
      invariant prev.Some? ==> s == Round(prev.value)
      decreases |s|, if prev == Some(s) then 0 else 1
    {
      RoundShrinks(s);
      RoundKeepsTheOutcome(s);
      prev := Some(s);
      s := StripOnce(s);
    }
    StableMeansUnescaped(s);
  }

  method StripOnce(s: string) returns (out: string)
    ensures out == Round(s)
  {
    out := [];
    var i := 0;
    while i < |s|
      invariant 0 <= i <= |s| && out + Round(s[i..]) == Round(s)
    {
      if s[i] == '\\' && i + 1 < |s| && IsEscapable(s[i + 1]) {
        assert Round(s[i..]) == [s[i + 1]] + Round(s[i + 2..]) by {
          assert s[i..][2..] == s[i + 2..];
        }
        out := out + [s[i + 1]];
        i := i + 2;
      } else {
        assert Round(s[i..]) == [s[i]] + Round(s[i + 1..]) by {
          assert s[i..][1..] == s[i + 1..];
        }
        out := out + [s[i]];
        i := i + 1;
      }
    }
  }

  lemma {:induction false} RoundShrinks(s: string)
    ensures |Round(s)| <= |s|
    ensures |Round(s)| == |s| ==> Round(s) == s
  {
    if s != [] {
      RoundShrinks(if StartsWithEscape(s) then s[2..] else s[1..]);
    }
  }

  lemma {:induction false} RoundKeepsTheOutcome(s: string)
    ensures Unescaped(Round(s)) == Unescaped(s)
  {
    if s != [] {
      var c, t := if StartsWithEscape(s) then s[1] else s[0], if StartsWithEscape(s) then s[2..] else s[1..];
      RoundKeepsTheOutcome(t);
      PrefixSeesTheSame(c, Round(t), t);
      assert Round(s) == [c] + Round(t);
      if StartsWithEscape(s) {
        assert s[1..] == [c] + t;
      } else {
        assert s == [c] + t;
      }
    }
  }

  /** What comes before a text is unescaped alike whether the text has been through a round or not. */
  lemma PrefixSeesTheSame(c: char, r: string, t: string)
    requires r == Round(t) && Unescaped(r) == Unescaped(t)
    ensures Unescaped([c] + r) == Unescaped([c] + t)
  {
    assert ([c] + r)[1..] == r && ([c] + t)[1..] == t;
    assert StartsWithEscape([c] + r) == StartsWithEscape([c] + t);
  }

  lemma {:induction false} StableMeansUnescaped(s: string)
    requires Round(s) == s
    ensures Unescaped(s) == s
  {
    if s != [] {
      if StartsWithEscape(s) {
        RoundShrinks(s[2..]);
        assert false;
      } else {
        assert Round(s)[1..] == Round(s[1..]);
        StableMeansUnescaped(s[1..]);
      }
    }
  }

  /** The result holds no escape pair. */
  lemma {:induction false} NoEscapeIsLeft(s: string)
    ensures !HasEscape(Unescaped(s))
    ensures s != [] ==> Unescaped(s) != [] && IsEscapable(Unescaped(s)[0]) == IsEscapable(s[0])
  {
    if s != [] {
      NoEscapeIsLeft(s[1..]);
      var rest := Unescaped(s[1..]);
      if !StartsWithEscape(s) {
        forall i | 0 <= i < |Unescaped(s)|
          ensures !StartsWithEscape(Unescaped(s)[i..])
        {
          if i > 0 {
            assert Unescaped(s)[i..] == rest[i - 1..];
          }
        }
      }
    }
  }

  /** A text is left alone exactly when it has no escape pair; so stripping again changes nothing. */
  lemma {:induction false} UnchangedExactlyWithoutEscapes(s: string)
    ensures Unescaped(s) == s <==> !HasEscape(s)
    ensures Unescaped(Unescaped(s)) == Unescaped(s)
  {
    NoEscapeIsLeft(s);
    if !HasEscape(s) {
      UnchangedWithoutEscapes(s);
    }
    UnchangedWithoutEscapes(Unescaped(s));
  }

  lemma {:induction false} UnchangedWithoutEscapes(s: string)
    requires !HasEscape(s)
    ensures Unescaped(s) == s
  {
    if s != [] {
      assert s[0..] == s;
      forall i | 0 <= i < |s[1..]|
        ensures !StartsWithEscape(s[1..][i..])
      {
        assert s[1..][i..] == s[i + 1..];
      }
      UnchangedWithoutEscapes(s[1..]);
    }
  }

  /** Backslashes are all that is lost. */
  lemma {:induction false} OnlyBackslashesAreLost(s: string)
    ensures WithoutBackslashes(Unescaped(s)) == WithoutBackslashes(s)
  {
    if s != [] {
      OnlyBackslashesAreLost(s[1..]);
      if !StartsWithEscape(s) {
        assert Unescaped(s)[1..] == Unescaped(s[1..]);
      }
    }
  }
}
