/** Construction of the four character classes used by the scanner. L and D
    are built by loops that append one character per step; P and E are fixed
    lists. */
module SetsUtils {
  import opened Models

  /** The class L: 'A'..'Z', then 'a'..'z', then '_'. */
  function Letters(): seq<char> {
    seq(53, k requires 0 <= k < 53 =>
      if k < 26 then (65 + k) as char
      else if k < 52 then (97 + (k - 26)) as char
      else '_')
  }

  /** The class D: '0'..'9' in ascending order. */
  function Digits(): seq<char> {
    seq(10, k requires 0 <= k < 10 => (48 + k) as char)
  }

  /** ASCII lower-casing of one byte; every other byte is kept. */
  function AsciiLower(c: char): (r: char)
    ensures 'A' <= c <= 'Z' ==> 'a' <= r <= 'z' && r as int - c as int == 32
    ensures !('A' <= c <= 'Z') ==> r == c
  {
    if 'A' <= c <= 'Z' then (c as int + 32) as char else c
  }

  /** Byte-wise lower-casing of a string. */
  function StrToLower(s: string): (r: string)
    ensures |r| == |s|
    ensures forall k :: 0 <= k < |s| ==> r[k] == AsciiLower(s[k])
  {
    seq(|s|, k requires 0 <= k < |s| => AsciiLower(s[k]))
  }

  /** Builds L: the upper-case letters by a loop over their codes, then
      their lower-case copies, then '_'. */
  method GenerateL() returns (result: seq<char>)
    ensures result == Letters()
  {
    var stringL: string := "";
    for i := 65 to 91
      invariant |stringL| == i - 65
      invariant forall k :: 0 <= k < i - 65 ==> stringL[k] == (65 + k) as char
    {
      stringL := stringL + [i as char];
    }
    var lower := StrToLower(stringL);
    result := stringL + lower + ['_'];
    forall k | 0 <= k < 53
      ensures result[k] == Letters()[k]
    {
      if 26 <= k < 52 {
        assert result[k] == lower[k - 26] == AsciiLower(stringL[k - 26]);
      }
    }
  }

  /** Builds D by a loop over the codes of '0'..'9'. */
  method GenerateD() returns (result: seq<char>)
    ensures result == Digits()
  {
    var d: seq<char> := [];
    for i := 48 to 58
      invariant |d| == i - 48
      invariant forall k :: 0 <= k < i - 48 ==> d[k] == (48 + k) as char
    {
      d := d + [i as char];
    }
    result := d;
  }

  /** The class P: 21 distinct punctuation characters. */
  function GenerateP(): (r: seq<char>)
    ensures |r| == 21
    ensures '_' in r && '$' in r && '@' in r
  {
    ['=', '+', '-', '*', '/', ',', ';', '!', '<', '>', '(', ')', '{', '}',
     '_', '#', '&', '^', '%', '$', '@']
  }

  /** The 21 characters of P are pairwise distinct. */
  lemma PunctuationDistinct()
    ensures forall a, b :: 0 <= a < b < |GenerateP()| ==> GenerateP()[a] != GenerateP()[b]
  {
  }

  /** The class E: space, backspace, line feed and carriage return; tab is
      not among them. */
  function GenerateE(): (r: seq<char>)
    ensures |r| == 4
    ensures '\t' !in r
    ensures forall c :: c in r <==> c as int == 32 || c as int == 8 || c as int == 10 || c as int == 13
  {
    [32 as char, 8 as char, 10 as char, 13 as char]
  }

  /** The classes as the scanner receives them, in the order L, D, P, E. */
  function StandardSets(): Sets {
    Sets(Letters(), Digits(), GenerateP(), GenerateE())
  }

  /** Builds the four classes and bundles them in the order L, D, P, E. */
  method GenerateSets() returns (sets: Sets)
    ensures sets == StandardSets()
  {
    var l := GenerateL();
    var d := GenerateD();
    sets := Sets(l, d, GenerateP(), GenerateE());
  }

  /** L holds exactly the ASCII letters and '_'. */
  lemma LettersMembership(c: char)
    ensures c in Letters() <==> 'A' <= c <= 'Z' || 'a' <= c <= 'z' || c == '_'
  {
    if 'A' <= c <= 'Z' {
      assert Letters()[c as int - 65] == c;
    } else if 'a' <= c <= 'z' {
      assert Letters()[c as int - 97 + 26] == c;
    } else if c == '_' {
      assert Letters()[52] == c;
    }
  }

  /** D holds exactly the ASCII digits. */
  lemma DigitsMembership(c: char)
    ensures c in Digits() <==> '0' <= c <= '9'
  {
    if '0' <= c <= '9' {
      assert Digits()[c as int - 48] == c;
    }
  }

  /** D shares no character with L, P or E; L and P share only '_'; E shares
      nothing with L or P. */
  lemma ClassesOverlap(c: char)
    ensures c in Digits() ==> c !in Letters() && c !in GenerateP() && c !in GenerateE()
    ensures c in Letters() && c in GenerateP() <==> c == '_'
    ensures c in GenerateE() ==> c !in Letters() && c !in GenerateP()
  {
    LettersMembership(c);
    DigitsMembership(c);
  }
}
