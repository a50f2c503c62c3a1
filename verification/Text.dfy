/** The string normalisation the service applies before it compares or stores anything. */
module Text {

  /** unicode.IsSpace, the set strings.TrimSpace removes. */
  predicate IsSpace(c: char) {
    || '\U{9}' <= c <= '\U{d}' || c == ' ' || c == '\U{85}' || c == '\U{a0}' || c == '\U{1680}'
    || '\U{2000}' <= c <= '\U{200a}' || c == '\U{2028}' || c == '\U{2029}' || c == '\U{202f}'
    || c == '\U{205f}' || c == '\U{3000}'
  }

  function TrimLeft(s: string): string {
    if s != "" && IsSpace(s[0]) then TrimLeft(s[1..]) else s
  }

  function TrimRight(s: string): string {
    if s != "" && IsSpace(s[|s| - 1]) then TrimRight(s[..|s| - 1]) else s
  }

  /** strings.TrimSpace */
  function Trim(s: string): string {
    TrimRight(TrimLeft(s))
  }

  predicate Trimmed(s: string) {
    s == "" || (!IsSpace(s[0]) && !IsSpace(s[|s| - 1]))
  }

  lemma {:induction false} TrimLeftEnds(s: string)
    ensures TrimLeft(s) == "" || !IsSpace(TrimLeft(s)[0])
  {
    if s != "" && IsSpace(s[0]) {
      TrimLeftEnds(s[1..]);
    }
  }

  lemma {:induction false} TrimRightEnds(s: string)
    ensures TrimRight(s) == "" || !IsSpace(TrimRight(s)[|TrimRight(s)| - 1])
    ensures TrimRight(s) <= s
  {
    if s != "" && IsSpace(s[|s| - 1]) {
      TrimRightEnds(s[..|s| - 1]);
    }
  }

  predicate AllSpace(s: string) { forall i :: 0 <= i < |s| ==> IsSpace(s[i]) }

  lemma {:induction false} TrimLeftDropsSpace(s: string)
    ensures exists n :: 0 <= n <= |s| && AllSpace(s[..n]) && TrimLeft(s) == s[n..]
  {
    if s != "" && IsSpace(s[0]) {
      TrimLeftDropsSpace(s[1..]);
      var n :| 0 <= n <= |s[1..]| && AllSpace(s[1..][..n]) && TrimLeft(s[1..]) == s[1..][n..];
      var cut := s[..n + 1];
      forall i | 0 <= i < |cut| ensures IsSpace(cut[i]) {
        if i > 0 { assert s[1..][..n][i - 1] == s[i]; }
      }
      assert TrimLeft(s) == s[n + 1..];
    } else {
      assert AllSpace(s[..0]) && TrimLeft(s) == s[0..];
    }
  }

  lemma {:induction false} TrimRightDropsSpace(s: string)
    ensures exists n :: 0 <= n <= |s| && AllSpace(s[n..]) && TrimRight(s) == s[..n]
  {
    if s != "" && IsSpace(s[|s| - 1]) {
      var pre := s[..|s| - 1];
      TrimRightDropsSpace(pre);
      var n :| 0 <= n <= |pre| && AllSpace(pre[n..]) && TrimRight(pre) == pre[..n];
      var cut := s[n..];
      forall i | 0 <= i < |cut| ensures IsSpace(cut[i]) {
        if i < |pre| - n { assert pre[n..][i] == s[n + i]; }
      }
      assert TrimRight(s) == s[..n];
    } else {
      assert AllSpace(s[|s|..]) && TrimRight(s) == s[..|s|];
    }
  }

  /** Trimming cuts off space on both sides and nothing else. */
  lemma TrimCutsOnlySpace(s: string) returns (i: nat, j: nat)
    ensures i <= j <= |s| && Trim(s) == s[i..j] && AllSpace(s[..i]) && AllSpace(s[j..])
  {
    hide TrimLeft, TrimRight, AllSpace;
    TrimLeftDropsSpace(s);
    var n :| 0 <= n <= |s| && AllSpace(s[..n]) && TrimLeft(s) == s[n..];
    var rest := s[n..];
    TrimRightDropsSpace(rest);
    var m :| 0 <= m <= |rest| && AllSpace(rest[m..]) && TrimRight(rest) == rest[..m];
    i, j := n, n + m;
    assert rest[m..] == s[j..] && rest[..m] == s[i..j];
  }

  /** White space in full: the control characters from tab to return, space, and the Unicode spaces. */
  const SPACES: string :=
    "\U{9}\U{a}\U{b}\U{c}\U{d} \U{85}\U{a0}\U{1680}\U{2000}\U{2001}\U{2002}\U{2003}\U{2004}\U{2005}\U{2006}\U{2007}\U{2008}\U{2009}\U{200a}\U{2028}\U{2029}\U{202f}\U{205f}\U{3000}"

  lemma SpacesInFull(c: char)
    ensures IsSpace(c) <==> c in SPACES
  {
    if '\U{9}' <= c <= '\U{d}' {
      assert SPACES[c as int - 9] == c;
    } else if '\U{2000}' <= c <= '\U{200a}' {
      assert SPACES[c as int - 0x2000 + 9] == c;
    } else if IsSpace(c) {
      assert SPACES[5] == ' ' && SPACES[6] == '\U{85}' && SPACES[7] == '\U{a0}' && SPACES[8] == '\U{1680}';
      assert SPACES[20] == '\U{2028}' && SPACES[21] == '\U{2029}' && SPACES[22] == '\U{202f}';
      assert SPACES[23] == '\U{205f}' && SPACES[24] == '\U{3000}';
    }
  }

  /** Trimming leaves exactly the strings with no outer space alone, and always returns such a string. */
  lemma TrimIsNormal(s: string)
    ensures Trimmed(Trim(s))
    ensures Trim(s) == s <==> Trimmed(s)
    ensures Trim(Trim(s)) == Trim(s)
  {
    var l := TrimLeft(s);
    TrimLeftEnds(s);
    TrimRightEnds(l);
    if Trim(s) != "" {
      assert Trim(s)[0] == l[0];
    }
  }

  function LowerChar(c: char): char {
    if 'A' <= c <= 'Z' then (c as int + 32) as char else c
  }

  /** strings.ToLower on ASCII letters. */
  function Lower(s: string): string {
    seq(|s|, i requires 0 <= i < |s| => LowerChar(s[i]))
  }

  /** A code as it is stored and looked up: trimmed, then lowered. */
  function Code(s: string): string {
    Lower(Trim(s))
  }

  const CAPITALS: string := "ABCDEFGHIJKLMNOPQRSTUVWXYZ"

  const SMALL: string := "abcdefghijklmnopqrstuvwxyz"

  /** Each capital becomes its small letter; every other character stays where and as it is. */
  lemma LowerReplacesCapitals(s: string)
    ensures |Lower(s)| == |s|
    ensures forall i, j :: 0 <= i < |s| && 0 <= j < 26 && s[i] == CAPITALS[j] ==> Lower(s)[i] == SMALL[j]
    ensures forall i :: 0 <= i < |s| && s[i] !in CAPITALS ==> Lower(s)[i] == s[i]
  {
    forall i, j | 0 <= i < |s| && 0 <= j < 26 && s[i] == CAPITALS[j] ensures Lower(s)[i] == SMALL[j] {
      LettersInOrder(j);
    }
    forall i | 0 <= i < |s| && s[i] !in CAPITALS ensures Lower(s)[i] == s[i] {
      if 'A' <= s[i] <= 'Z' {
        LettersInOrder(s[i] as int - 65);
      }
    }
  }

  lemma LettersInOrder(j: nat)
    requires j < 26
    ensures CAPITALS[j] as int == 65 + j && SMALL[j] as int == 97 + j
  {
  }

  lemma LowerCharKeepsSpace(c: char)
    ensures IsSpace(LowerChar(c)) == IsSpace(c)
    ensures LowerChar(LowerChar(c)) == LowerChar(c)
  {
  }

  lemma CodeIsNormal(s: string)
    ensures Trimmed(Code(s)) && Code(Code(s)) == Code(s)
  {
    TrimIsNormal(s);
    var c := Code(s);
    if c != "" {
      LowerCharKeepsSpace(Trim(s)[0]);
      LowerCharKeepsSpace(Trim(s)[|c| - 1]);
    }
    TrimIsNormal(c);
    forall i | 0 <= i < |c| ensures Lower(c)[i] == c[i] {
      LowerCharKeepsSpace(Trim(s)[i]);
    }
  }

  predicate IsCodeTail(c: char) {
    'a' <= c <= 'z' || '0' <= c <= '9' || c == '.' || c == '_' || c == '-'
  }

  /** ^[a-z][a-z0-9._-]{min,max}$ */
  predicate MatchesPattern(s: string, min: nat, max: nat) {
    && s != ""
    && 'a' <= s[0] <= 'z'
    && min <= |s| - 1 <= max
    && forall i :: 1 <= i < |s| ==> IsCodeTail(s[i])
  }

  predicate IsMeterCode(s: string) { MatchesPattern(s, 1, 127) }

  predicate IsDimensionKey(s: string) { MatchesPattern(s, 0, 63) }

  /** The characters a code may go on with. */
  const TAIL: string := SMALL + "0123456789._-"

  lemma InSmall(c: char)
    ensures c in SMALL <==> 'a' <= c <= 'z'
  {
    if 'a' <= c <= 'z' {
      LettersInOrder(c as int - 97);
    } else if c in SMALL {
      var j :| 0 <= j < |SMALL| && SMALL[j] == c;
      LettersInOrder(j);
    }
  }

  lemma InTail(c: char)
    ensures c in TAIL <==> IsCodeTail(c)
  {
    InSmall(c);
    DigitsAndMarks(c);
    assert c in TAIL <==> c in SMALL || c in "0123456789._-";
  }

  lemma DigitsAndMarks(c: char)
    ensures c in "0123456789._-" <==> '0' <= c <= '9' || c == '.' || c == '_' || c == '-'
  {
    var m := "0123456789._-";
    if '0' <= c <= '9' {
      assert m[c as int - 48] == c;
    } else if c == '.' || c == '_' || c == '-' {
      assert m[10] == '.' && m[11] == '_' && m[12] == '-';
    }
  }

  lemma PatternMeans(s: string, min: nat, max: nat)
    ensures MatchesPattern(s, min, max) <==>
      min + 1 <= |s| <= max + 1 && s[0] in SMALL && forall i :: 1 <= i < |s| ==> s[i] in TAIL
  {
    hide IsCodeTail;
    if s != "" {
      InSmall(s[0]);
      forall i | 1 <= i < |s| ensures s[i] in TAIL <==> IsCodeTail(s[i]) { InTail(s[i]); }
    }
  }

  /** A meter code has 2 to 128 characters and a dimension key 1 to 64, from a small letter on. */
  lemma CodesAndKeys(s: string)
    ensures IsMeterCode(s) <==> 2 <= |s| <= 128 && s[0] in SMALL && forall i :: 1 <= i < |s| ==> s[i] in TAIL
    ensures IsDimensionKey(s) <==> 1 <= |s| <= 64 && s[0] in SMALL && forall i :: 1 <= i < |s| ==> s[i] in TAIL
  {
    hide MatchesPattern;
    PatternMeans(s, 1, 127);
    PatternMeans(s, 0, 63);
  }
}
