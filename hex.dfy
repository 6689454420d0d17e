/** Hex colour codes as the user types them: the validity gate
    (isValidHex), the normaliser (normalizeHex) and the canonical
    seven-character form "#RRGGBB" that the normaliser produces. */
module HexCode {

  /** A character of the regular-expression class [0-9A-Fa-f]. */
  predicate IsHexDigit(c: char) {
    '0' <= c <= '9' || 'A' <= c <= 'F' || 'a' <= c <= 'f'
  }

  /** A hex digit as the normaliser writes it: [0-9A-F]. */
  predicate IsUpperHexDigit(c: char) {
    '0' <= c <= '9' || 'A' <= c <= 'F'
  }

  predicate AllHexDigits(s: string) {
    forall i :: 0 <= i < |s| ==> IsHexDigit(s[i])
  }

  /** The canonical form: '#' followed by exactly six upper-case hex digits. */
  predicate IsNormalHex(h: string) {
    |h| == 7 && h[0] == '#' && forall i :: 1 <= i < 7 ==> IsUpperHexDigit(h[i])
  }

  /** `s.indexOf(c)`: the position of the first occurrence of c, or -1. */
  function IndexOf(s: string, c: char): (i: int)
    ensures -1 <= i < |s|
    ensures i == -1 <==> c !in s
    ensures 0 <= i ==> s[i] == c && c !in s[..i]
  {
    if s == [] then -1
    else if s[0] == c then 0
    else
      var j := IndexOf(s[1..], c);
      if j == -1 then -1
      else
        assert s[..j + 1] == [s[0]] + s[1..][..j];
        j + 1
  }

  /** `s.replace("#", "")`: a string pattern replaces its first occurrence
      only, wherever in s it stands; without a '#' the string is unchanged. */
  function RemoveFirstHash(s: string): (r: string)
    ensures '#' !in s ==> r == s
    ensures '#' in s ==> |r| == |s| - 1
  {
    var i := IndexOf(s, '#');
    if i == -1 then s else s[..i] + s[i + 1..]
  }

  /** What the rewrite removes: exactly one '#', the first one, and the
      characters on either side of it stay in order. */
  lemma RemoveFirstHashSplit(s: string)
    requires '#' in s
    ensures exists i :: (0 <= i < |s| && s[i] == '#' && '#' !in s[..i] &&
      RemoveFirstHash(s) == s[..i] + s[i + 1..])
    ensures multiset(RemoveFirstHash(s)) == multiset(s) - multiset{'#'}
  {
    var i := IndexOf(s, '#');
    assert s == s[..i] + [s[i]] + s[i + 1..];
  }

  /** The '#' removed is the one after a '#'-free prefix. */
  lemma RemoveFirstHashAt(a: string, b: string)
    requires '#' !in a
    ensures RemoveFirstHash(a + "#" + b) == a + b
  {
    var s := a + "#" + b;
    var i := IndexOf(s, '#');
    assert s[|a|] == '#';
    assert forall k :: 0 <= k < |a| ==> s[k] == a[k];
    assert i == |a|;
    assert s[..i] == a && s[i + 1..] == b;
  }

  /** A whole-string match of `^[0-9A-Fa-f]{n}$`. */
  predicate MatchesHexRun(s: string, n: nat) {
    |s| == n && AllHexDigits(s)
  }

  /** isValidHex: after dropping the first '#', the rest matches
      `^[0-9A-Fa-f]{3}$|^[0-9A-Fa-f]{6}$`. */
  predicate IsValidHex(s: string) {
    var body := RemoveFirstHash(s);
    MatchesHexRun(body, 3) || MatchesHexRun(body, 6)
  }

  /** `toUpperCase` on the characters a hex code can hold: a-z become A-Z,
      everything else is kept. */
  function UpperChar(c: char): (u: char)
    ensures IsHexDigit(c) ==> IsUpperHexDigit(u)
    ensures 'a' <= c <= 'z' ==> 'A' <= u <= 'Z' && u as int == c as int - 32
    ensures !('a' <= c <= 'z') ==> u == c
  {
    if 'a' <= c <= 'z' then (c as int - 32) as char else c
  }

  /** `s.toUpperCase()`: same length, each character upper-cased on its own. */
  function ToUpper(s: string): (r: string)
    ensures |r| == |s|
    ensures AllHexDigits(s) ==> forall k :: 0 <= k < |r| ==> IsUpperHexDigit(r[k])
  {
    seq(|s|, i requires 0 <= i < |s| => UpperChar(s[i]))
  }

  /** `s.split("").map(c => c + c).join("")`: every character written twice. */
  function Doubled(s: string): (r: string)
    ensures |r| == 2 * |s|
    ensures forall k :: 0 <= k < |r| ==> r[k] == s[k / 2]
  {
    if s == [] then []
    else
      var rest := Doubled(s[1..]);
      assert forall k :: 2 <= k < 2 * |s| ==> rest[k - 2] == s[k / 2] by {
        forall k | 2 <= k < 2 * |s| ensures rest[k - 2] == s[k / 2] {
          assert (k - 2) / 2 + 1 == k / 2;
        }
      }
      [s[0], s[0]] + rest
  }

  /** normalizeHex: drop the first '#', widen a three-digit body by doubling
      each digit, upper-case, and put one '#' in front. */
  function NormalizeHex(s: string): (r: string)
    ensures IsValidHex(s) ==> IsNormalHex(r)
  {
    var body := RemoveFirstHash(s);
    var wide := if |body| == 3 then Doubled(body) else body;
    assert IsValidHex(s) ==> |wide| == 6 && forall k :: 0 <= k < 6 ==> IsHexDigit(wide[k]);
    "#" + ToUpper(wide)
  }

  /** The characters of s other than position i, seen in s with i cut out. */
  lemma CutIndexing(s: string, i: int, cut: string)
    requires 0 <= i < |s| && cut == s[..i] + s[i + 1..]
    ensures |cut| == |s| - 1
    ensures forall k :: 0 <= k < i ==> cut[k] == s[k]
    ensures forall k :: i <= k < |cut| ==> cut[k] == s[k + 1]
  {
  }

  /** The right-hand side of IsValidHexCharacterization. */
  ghost predicate OneHashAtMostAndHexOtherwise(s: string) {
    multiset(s)['#'] <= 1 &&
    (forall i :: 0 <= i < |s| && s[i] != '#' ==> IsHexDigit(s[i])) &&
    (|s| - multiset(s)['#'] == 3 || |s| - multiset(s)['#'] == 6)
  }

  lemma ValidWithHashHasOneHash(s: string)
    requires '#' in s && IsValidHex(s)
    ensures OneHashAtMostAndHexOtherwise(s)
  {
    var i := IndexOf(s, '#');
    var body := RemoveFirstHash(s);
    RemoveFirstHashSplit(s);
    CutIndexing(s, i, body);
    assert '#' !in body;
    assert multiset(body)['#'] == 0;
    assert s[i] in multiset(s);
    assert multiset(s)['#'] == 1;
    forall k | 0 <= k < |s| && s[k] != '#'
      ensures IsHexDigit(s[k])
    {
      if k < i { assert body[k] == s[k]; } else { assert body[k - 1] == s[k]; }
    }
  }

  lemma OneHashWithHexIsValid(s: string)
    requires '#' in s && OneHashAtMostAndHexOtherwise(s)
    ensures IsValidHex(s)
  {
    var i := IndexOf(s, '#');
    var body := RemoveFirstHash(s);
    RemoveFirstHashSplit(s);
    CutIndexing(s, i, body);
    assert s[i] in multiset(s);
    assert multiset(body)['#'] == 0;
    forall k | 0 <= k < |body|
      ensures IsHexDigit(body[k])
    {
      assert body[k] in multiset(body);
      if k < i { assert body[k] == s[k]; } else { assert body[k] == s[k + 1]; }
    }
  }

  /** IsValidHex described without the first-'#' rewrite: the string holds at
      most one '#', every other character is a hex digit, and there are
      exactly three or exactly six of them. */
  lemma IsValidHexCharacterization(s: string)
    ensures IsValidHex(s) <==> OneHashAtMostAndHexOtherwise(s)
  {
    if '#' in s {
      if IsValidHex(s) { ValidWithHashHasOneHash(s); }
      if OneHashAtMostAndHexOtherwise(s) { OneHashWithHexIsValid(s); }
    } else {
      assert multiset(s)['#'] == 0;
    }
  }

  /** Codes the input gate accepts without a '#'. */
  lemma IsValidHexAcceptsBare()
    ensures IsValidHex("FFF")
    ensures IsValidHex("FF5733")
  {
  }

  /** A leading '#' is dropped before the digits are matched. */
  lemma IsValidHexAcceptsLeadingHash()
    ensures IsValidHex("#FF5733")
  {
    RemoveFirstHashAt("", "FF5733");
    assert "" + "#" + "FF5733" == "#FF5733";
  }

  /** So is a '#' that is not in front: "F#FF" passes as "FFF". */
  lemma IsValidHexAcceptsInnerHash()
    ensures IsValidHex("F#FF")
  {
    RemoveFirstHashAt("F", "FF");
    assert "F" + "#" + "FF" == "F#FF";
  }

  /** Inputs the gate rejects: the empty string, a non-hex letter, and a
      second '#' that the first-occurrence rewrite leaves behind. */
  lemma IsValidHexRejects()
    ensures !IsValidHex("")
    ensures !IsValidHex("GG5733")
    ensures !IsValidHex("##FFF")
  {
    RemoveFirstHashAt("", "#FFF");
    assert "" + "#" + "#FFF" == "##FFF";
  }

  /** The characters of a normalised code, position by position: a
      three-digit body abc gives #AABBCC, a six-digit body is copied;
      either way in upper case. */
  lemma NormalizeHexDigits(s: string)
    requires IsValidHex(s)
    ensures var body, r := RemoveFirstHash(s), NormalizeHex(s);
      (|body| == 3 ==> r == ['#', UpperChar(body[0]), UpperChar(body[0]),
                                  UpperChar(body[1]), UpperChar(body[1]),
                                  UpperChar(body[2]), UpperChar(body[2])]) &&
      (|body| == 6 ==> r == ['#', UpperChar(body[0]), UpperChar(body[1]),
                                  UpperChar(body[2]), UpperChar(body[3]),
                                  UpperChar(body[4]), UpperChar(body[5])])
  {
    var body := RemoveFirstHash(s);
    if |body| == 3 {
      DoubledThree(body);
      UpperSix(Doubled(body));
    } else {
      UpperSix(body);
    }
  }

  lemma DoubledThree(t: string)
    requires |t| == 3
    ensures Doubled(t) == [t[0], t[0], t[1], t[1], t[2], t[2]]
  {
    var w := Doubled(t);
    assert w[0] == t[0 / 2] && w[1] == t[1 / 2] && w[2] == t[2 / 2];
    assert w[3] == t[3 / 2] && w[4] == t[4 / 2] && w[5] == t[5 / 2];
  }

  lemma UpperSix(w: string)
    requires |w| == 6
    ensures "#" + ToUpper(w) == ['#', UpperChar(w[0]), UpperChar(w[1]), UpperChar(w[2]),
                                      UpperChar(w[3]), UpperChar(w[4]), UpperChar(w[5])]
  {
  }

  /** In the output of a three-digit code the pairs (1,2), (3,4), (5,6) agree. */
  lemma NormalizeHexPairsEqual(s: string)
    requires IsValidHex(s) && |RemoveFirstHash(s)| == 3
    ensures var r := NormalizeHex(s); r[1] == r[2] && r[3] == r[4] && r[5] == r[6]
  {
    NormalizeHexDigits(s);
  }

  /** A normalised code passes the gate and is its own normal form. */
  lemma NormalHexIsFixedPoint(h: string)
    requires IsNormalHex(h)
    ensures IsValidHex(h) && IsValidHex(h[1..])
    ensures NormalizeHex(h) == h && NormalizeHex(h[1..]) == h
  {
    assert IndexOf(h, '#') == 0;
    assert RemoveFirstHash(h) == h[1..];
    assert '#' !in h[1..] by {
      forall k | 0 <= k < 6 ensures h[1..][k] != '#' {
        assert IsUpperHexDigit(h[k + 1]);
      }
    }
    assert RemoveFirstHash(h[1..]) == h[1..];
    assert forall k :: 0 <= k < 6 ==> IsHexDigit(h[1..][k]) by {
      forall k | 0 <= k < 6 ensures IsHexDigit(h[1..][k]) {
        assert IsUpperHexDigit(h[k + 1]);
      }
    }
    assert ToUpper(h[1..]) == h[1..] by {
      forall k | 0 <= k < 6 ensures ToUpper(h[1..])[k] == h[1..][k] {
        assert IsUpperHexDigit(h[k + 1]);
      }
    }
  }

  /** normalizeHex is idempotent on valid input, also when the '#' of its
      own output is sliced off first; the output passes the gate. */
  lemma NormalizeHexIdempotent(s: string)
    requires IsValidHex(s)
    ensures IsValidHex(NormalizeHex(s))
    ensures NormalizeHex(NormalizeHex(s)) == NormalizeHex(s)
    ensures NormalizeHex(NormalizeHex(s)[1..]) == NormalizeHex(s)
  {
    NormalHexIsFixedPoint(NormalizeHex(s));
  }

  lemma NormalizeHexWidensShortCode()
    ensures NormalizeHex("a1f") == "#AA11FF"
  {
    var s := "a1f";
    assert RemoveFirstHash(s) == s;
    assert IsValidHex(s);
    NormalizeHexDigits(s);
  }

  lemma NormalizeHexUppercases()
    ensures NormalizeHex("667eea") == "#667EEA"
  {
    var s := "667eea";
    assert RemoveFirstHash(s) == s;
    assert IsValidHex(s);
    NormalizeHexDigits(s);
  }

  /** A leading '#' makes no difference to the normal form. */
  lemma NormalizeHexLeadingHash(body: string)
    requires '#' !in body
    ensures NormalizeHex("#" + body) == NormalizeHex(body)
  {
    RemoveFirstHashAt("", body);
    assert "" + "#" + body == "#" + body;
    assert RemoveFirstHash("#" + body) == body == RemoveFirstHash(body);
  }

  lemma NormalizeHexKeepsOneHash()
    ensures NormalizeHex("#667eea") == "#667EEA"
  {
    NormalizeHexLeadingHash("667eea");
    NormalizeHexUppercases();
    assert "#" + "667eea" == "#667eea";
  }
}
