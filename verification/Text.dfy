// Python's whitespace stripping.
module Text {

  /** Python's `str.isspace` on one character. */
  predicate IsSpace(c: char) {
    var code := c as int;
    || 0x09 <= code <= 0x0D || 0x1C <= code <= 0x20 || code == 0x85 || code == 0xA0 || code == 0x1680
    || 0x2000 <= code <= 0x200A || code == 0x2028 || code == 0x2029 || code == 0x202F || code == 0x205F
    || code == 0x3000
  }

  function RStrip(s: string): (r: string)
    ensures r <= s
  {
    if s != "" && IsSpace(s[|s| - 1]) then RStrip(s[..|s| - 1]) else s
  }

  lemma {:induction false} RStripMeaning(s: string)
    ensures var r := RStrip(s);
            (r != "" ==> !IsSpace(r[|r| - 1])) && forall i | |r| <= i < |s| :: IsSpace(s[i])
  {
    if s != "" && IsSpace(s[|s| - 1]) {
      RStripMeaning(s[..|s| - 1]);
      forall i | |RStrip(s)| <= i < |s| - 1 ensures IsSpace(s[i]) {
        assert s[..|s| - 1][i] == s[i];
      }
    }
  }

  function LStrip(s: string): string {
    if s != "" && IsSpace(s[0]) then LStrip(s[1..]) else s
  }

  function Strip(s: string): string {
    RStrip(LStrip(s))
  }

  lemma {:induction false} LStripMeaning(s: string)
    ensures var r := LStrip(s);
            && |r| <= |s| && r == s[|s| - |r|..]
            && (r != "" ==> !IsSpace(r[0]))
            && forall i | 0 <= i < |s| - |r| :: IsSpace(s[i])
  {
    if s != "" && IsSpace(s[0]) {
      LStripMeaning(s[1..]);
      forall i | 0 <= i < |s| - |LStrip(s)| ensures IsSpace(s[i]) {
        assert i > 0 ==> s[1..][i - 1] == s[i];
      }
    }
  }

  /** Stripping cuts exactly the whitespace around the text from `i` to `j`. */
  lemma StripMeaning(s: string) returns (i: nat, j: nat)
    ensures i <= j <= |s| && Strip(s) == s[i..j]
    ensures i < j ==> !IsSpace(s[i]) && !IsSpace(s[j - 1])
    ensures forall k | 0 <= k < i || j <= k < |s| :: IsSpace(s[k])
  {
    var rest := LStrip(s);
    LStripMeaning(s);
    RStripMeaning(rest);
    i := |s| - |rest|;
    j := i + |RStrip(rest)|;
    assert s[i..][..|RStrip(rest)|] == s[i..j];
    forall k | j <= k < |s| ensures IsSpace(s[k]) {
      assert rest[k - i] == s[k];
    }
  }

  /** Nothing is left exactly when the text is only whitespace. */
  lemma StripEmptyIff(s: string)
    ensures Strip(s) == "" <==> forall i | 0 <= i < |s| :: IsSpace(s[i])
  {
    var i, j := StripMeaning(s);
  }

  /** The whitespace characters, one by one. */
  lemma SpacesAre(c: char)
    ensures IsSpace(c) <==>
              c in "\t\n\r \U{0b}\U{0c}\U{1c}\U{1d}\U{1e}\U{1f}\U{85}\U{a0}\U{1680}\U{2028}\U{2029}\U{202f}\U{205f}\U{3000}"
              || "\U{2000}"[0] <= c <= "\U{200a}"[0]
  {
  }

  lemma StripKeepsText(s: string)
    requires s != "" && !IsSpace(s[0])
    ensures Strip(s) != ""
  {
    assert LStrip(s) == s;
    RStripMeaning(s);
  }
}
