/**
 * String helpers of the agent (agent/pkg/util/util.go): linear membership
 * and recognition of padded standard base64 text, whose alphabet is the
 * one of section 4 of RFC 4648.
 */
module Util {

  /** `Contains`: a linear search that returns on the first match. */
  method Contains(arr: seq<string>, element: string) returns (found: bool)
    ensures found <==> exists i :: 0 <= i < |arr| && arr[i] == element
  {
    var i := 0;
    while i < |arr|
      invariant 0 <= i <= |arr|
      invariant forall j :: 0 <= j < i ==> arr[j] != element
    {
      if arr[i] == element {
        return true;
      }
      i := i + 1;
    }
    return false;
  }

  // ------------------------------------------------------------------
  // The language of the `Base64` pattern:
  //   ^(?:[A-Za-z0-9+/]{4})*(?:[A-Za-z0-9+/]{2}==|[A-Za-z0-9+/]{3}=|[A-Za-z0-9+/]{4})$
  // ------------------------------------------------------------------

  /** One character of the class `[A-Za-z0-9+/]`. */
  predicate IsBase64Char(c: char)
  {
    ('A' <= c <= 'Z') || ('a' <= c <= 'z') || ('0' <= c <= '9') || c == '+' || c == '/'
  }

  /** A repeated group: four alphabet characters. */
  predicate IsFullGroup(g: string)
  {
    |g| == 4 && IsBase64Char(g[0]) && IsBase64Char(g[1]) && IsBase64Char(g[2]) && IsBase64Char(g[3])
  }

  /** The mandatory last group: two characters and `==`, three and `=`, or four. */
  predicate IsFinalGroup(g: string)
  {
    && |g| == 4
    && IsBase64Char(g[0]) && IsBase64Char(g[1])
    && ((g[2] == '=' && g[3] == '=') || (IsBase64Char(g[2]) && (g[3] == '=' || IsBase64Char(g[3]))))
  }

  /**
   * The pattern read as written: any number of full groups, then one
   * final group, anchored at both ends. Every alternative is exactly four
   * characters long, so the split into groups is forced.
   */
  predicate MatchesBase64(s: string)
    decreases |s|
  {
    || (|s| == 4 && IsFinalGroup(s))
    || (|s| > 4 && IsFullGroup(s[..4]) && MatchesBase64(s[4..]))
  }

  /** The same language without recursion: alphabet text, then a final group. */
  predicate IsPaddedBase64(s: string)
  {
    && |s| >= 4 && |s| % 4 == 0
    && (forall i :: 0 <= i < |s| - 4 ==> IsBase64Char(s[i]))
    && IsFinalGroup(s[|s| - 4..])
  }

  lemma {:induction false} MatchesBase64IffPadded(s: string)
    ensures MatchesBase64(s) <==> IsPaddedBase64(s)
    decreases |s|
  {
    if |s| > 4 {
      MatchesBase64IffPadded(s[4..]);
      if |s| >= 8 {
        assert s[4..][|s| - 8..] == s[|s| - 4..];
      }
      if IsPaddedBase64(s) {
        assert IsFullGroup(s[..4]);
        forall i | 0 <= i < |s[4..]| - 4
          ensures IsBase64Char(s[4..][i])
        {
          assert s[4..][i] == s[i + 4];
        }
      }
      if MatchesBase64(s) {
        forall i | 0 <= i < |s| - 4
          ensures IsBase64Char(s[i])
        {
          if i >= 4 {
            assert s[i] == s[4..][i - 4];
          } else {
            assert s[i] == s[..4][i];
          }
        }
      }
    }
  }

  /** `IsBase64`: decides the pattern with one pass over the text. */
  method IsBase64(str: string) returns (ok: bool)
    ensures ok <==> MatchesBase64(str)
  {
    MatchesBase64IffPadded(str);
    if |str| < 4 || |str| % 4 != 0 {
      return false;
    }
    var i := 0;
    while i < |str| - 4
      invariant 0 <= i <= |str| - 4
      invariant forall j :: 0 <= j < i ==> IsBase64Char(str[j])
    {
      if !IsBase64Char(str[i]) {
        return false;
      }
      i := i + 1;
    }
    ok := IsFinalGroup(str[|str| - 4..]);
  }

  /** The final group is mandatory: accepted text is a positive multiple of four long. */
  lemma AcceptedLength(s: string)
    requires MatchesBase64(s)
    ensures |s| > 0 && |s| % 4 == 0
  {
    MatchesBase64IffPadded(s);
  }

  /** Every accepted character is in the alphabet or is the pad `=`. */
  lemma AcceptedCharacters(s: string)
    requires MatchesBase64(s)
    ensures forall i :: 0 <= i < |s| ==> IsBase64Char(s[i]) || s[i] == '='
  {
    MatchesBase64IffPadded(s);
    forall i | |s| - 4 <= i < |s|
      ensures IsBase64Char(s[i]) || s[i] == '='
    {
      assert s[i] == s[|s| - 4..][i - (|s| - 4)];
    }
  }

  /**
   * Padding stands only at the end: a `=` is one of the last two
   * characters, and a `=` second to last is followed by another `=`. So at
   * most two `=` occur.
   */
  lemma PaddingOnlyAtEnd(s: string, i: nat)
    requires MatchesBase64(s)
    requires i < |s| && s[i] == '='
    ensures i >= |s| - 2
    ensures i == |s| - 2 ==> s[|s| - 1] == '='
  {
    MatchesBase64IffPadded(s);
    var g := s[|s| - 4..];
    if i >= |s| - 4 {
      assert s[i] == g[i - (|s| - 4)];
      assert g[3] == s[|s| - 1];
    }
  }

  /** Any concatenation of full groups over the alphabet is accepted. */
  lemma UnpaddedAccepted(s: string)
    requires |s| > 0 && |s| % 4 == 0
    requires forall i :: 0 <= i < |s| ==> IsBase64Char(s[i])
    ensures MatchesBase64(s)
  {
    MatchesBase64IffPadded(s);
    var g := s[|s| - 4..];
    assert g[0] == s[|s| - 4] && g[1] == s[|s| - 3] && g[2] == s[|s| - 2] && g[3] == s[|s| - 1];
  }

  /** Prefixing a full group to accepted text keeps it accepted. */
  lemma PrefixGroupAccepted(g: string, s: string)
    requires IsFullGroup(g) && MatchesBase64(s)
    ensures MatchesBase64(g + s)
  {
    AcceptedLength(s);
    assert (g + s)[..4] == g;
    assert (g + s)[4..] == s;
  }

  /** Two fixed cases: "TWFu" and "TQ==" are accepted, "TQ=" and "" are not. */
  lemma Base64Examples()
    ensures MatchesBase64("TWFu") && MatchesBase64("TQ==")
    ensures !MatchesBase64("TQ=") && !MatchesBase64("")
  {
  }
}
