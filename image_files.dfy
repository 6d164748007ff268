/** Card image file names: `hk` followed by the card ID left-padded with `0` to eight characters, then `.webp`. */
module ImageFiles {

  /** `s.padStart(n, c)` for a one-character pad string. */
  function PadStart(s: string, n: nat, c: char): (r: string)
    ensures |s| >= n ==> r == s
    ensures |s| < n ==> |r| == n && r[n - |s|..] == s
    ensures forall i :: 0 <= i < |r| - |s| ==> r[i] == c
  {
    if |s| >= n then s else seq(n - |s|, _ => c) + s
  }

  function Max(a: int, b: int): int
  {
    if a < b then b else a
  }

  /** `generateImageFilename(id)`. */
  function GenerateImageFilename(id: string): (r: string)
    ensures |r| == 2 + Max(8, |id|) + 5
    ensures r[..2] == "hk" && r[|r| - 5..] == ".webp"
    ensures r[|r| - 5 - |id|..|r| - 5] == id
    ensures forall i :: 2 <= i < |r| - 5 - |id| ==> r[i] == '0'
  {
    var p := PadStart(id, 8, '0');
    var r := "hk" + p + ".webp";
    assert r[2..2 + |p|] == p;
    r
  }

  /** `s` with its leading `0` characters removed. */
  function StripLeadingZeros(s: string): (r: string)
    ensures r == [] || r[0] != '0'
    ensures |r| <= |s| && r == s[|s| - |r|..]
  {
    if s != [] && s[0] == '0' then StripLeadingZeros(s[1..]) else s
  }

  /** Reads an ID back from a file name: the inverse of `GenerateImageFilename`
      for IDs that do not begin with `0`. */
  function IdFromFilename(f: string): (r: string)
  {
    if |f| >= 7 then StripLeadingZeros(f[2..|f| - 5]) else f
  }

  lemma {:induction false} StripZeroPadding(k: nat, id: string)
    requires id == [] || id[0] != '0'
    ensures StripLeadingZeros(seq(k, _ => '0') + id) == id
  {
    if k > 0 {
      assert (seq(k, _ => '0') + id)[1..] == seq(k - 1, _ => '0') + id;
      StripZeroPadding(k - 1, id);
    } else {
      assert seq(k, _ => '0') + id == id;
    }
  }

  /** The file name determines the ID, for IDs that do not begin with `0`. */
  lemma {:induction false} FilenameRoundTrip(id: string)
    requires id == [] || id[0] != '0'
    ensures IdFromFilename(GenerateImageFilename(id)) == id
  {
    var p := PadStart(id, 8, '0');
    var f := GenerateImageFilename(id);
    assert f == "hk" + p + ".webp";
    MiddleOf("hk", p, ".webp");
    assert IdFromFilename(f) == StripLeadingZeros(p);
    if |id| >= 8 {
      StripZeroPadding(0, id);
    } else {
      assert p == seq(8 - |id|, _ => '0') + id;
      StripZeroPadding(8 - |id|, id);
    }
  }

  /** The middle of `a + m + b`, between `a` and `b`, is `m`. */
  lemma MiddleOf(a: string, m: string, b: string)
    ensures (a + m + b)[|a|..|a + m + b| - |b|] == m
  {
  }

  /** Two such IDs never share an image file. */
  lemma FilenameInjective(a: string, b: string)
    requires a == [] || a[0] != '0'
    requires b == [] || b[0] != '0'
    requires GenerateImageFilename(a) == GenerateImageFilename(b)
    ensures a == b
  {
    FilenameRoundTrip(a);
    FilenameRoundTrip(b);
  }

  /** An ID with a leading zero collides with the ID without it. */
  lemma LeadingZeroCollides()
    ensures GenerateImageFilename("01") == GenerateImageFilename("1")
  {
    assert PadStart("01", 8, '0') == "00000001";
    assert PadStart("1", 8, '0') == "00000001";
  }
}
