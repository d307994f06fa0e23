/**
  The cache path encoders of the tile core: the "TileCache" layout, which
  splits each of x and y into millions, thousands and units groups of at
  least three digits, and the "MapProxy" layout, which splits each into two
  groups of at least four digits. Each encoder is paired with a decoder
  defined here, and the round-trip lemmas show that a path determines the
  zoom, column, row and extension it was built from.
*/
module CachePaths {
  import opened Ints
  import opened Wrappers
  import opened Decimal

  /** The number a TileCache triple of groups stands for. */
  function TcJoin(high: nat, mid: nat, low: nat): (v: nat) {
    high * 1_000_000 + mid * 1_000 + low
  }

  /** The number a MapProxy pair of groups stands for. */
  function MpJoin(high: nat, low: nat): (v: nat) {
    high * 10_000 + low
  }

  lemma SplitThousands(v: nat)
    ensures TcJoin(v / 1_000_000, (v / 1_000) % 1_000, v % 1_000) == v
  {
    var a := v / 1_000;
    assert v == a * 1_000 + v % 1_000;
    assert a == (a / 1_000) * 1_000 + a % 1_000;
    assert a / 1_000 == v / 1_000_000;
  }

  /** The three TileCache groups of one coordinate. */
  lemma TcGroups(v: u32)
    ensures TcJoin(ParseDec(PadDec(v / 1_000_000, 3)), ParseDec(PadDec((v / 1_000) % 1_000, 3)), ParseDec(PadDec(v % 1_000, 3))) == v
    ensures |PadDec((v / 1_000) % 1_000, 3)| == 3 && |PadDec(v % 1_000, 3)| == 3
    ensures 3 <= |PadDec(v / 1_000_000, 3)| <= 4
    ensures |PadDec(v / 1_000_000, 3)| > 3 ==> PadDec(v / 1_000_000, 3)[0] != '0'
  {
    SplitThousands(v);
    PadDecReadsBack(v / 1_000_000, 3);
    PadDecReadsBack((v / 1_000) % 1_000, 3);
    PadDecReadsBack(v % 1_000, 3);
    assert Pow10(3) == 1_000;
    assert Pow10(4) == 10_000;
    assert v / 1_000_000 < 10_000;
    DecStrFitsWidth(v / 1_000_000, 4);
  }

  /**
    `xy_to_tc`: six digit groups, three for `x` then three for `y`; the two
    lower groups of a triple have exactly three digits and the top group
    three or four (a `u32` has at most 4294 millions), and a four-digit top
    group carries no padding zero. `XyToTcReadsBack` states what the groups
    stand for.
  */
  function XyToTc(x: u32, y: u32): (r: seq<string>)
    ensures |r| == 6
    ensures forall i :: 0 <= i < 6 ==> AllDigits(r[i])
    ensures |r[1]| == |r[2]| == |r[4]| == |r[5]| == 3
    ensures 3 <= |r[0]| <= 4 && 3 <= |r[3]| <= 4
    ensures |r[0]| > 3 ==> r[0][0] != '0'
    ensures |r[3]| > 3 ==> r[3][0] != '0'
  {
    TcGroups(x);
    TcGroups(y);
    [
      PadDec(x / 1_000_000, 3),
      PadDec((x / 1_000) % 1_000, 3),
      PadDec(x % 1_000, 3),
      PadDec(y / 1_000_000, 3),
      PadDec((y / 1_000) % 1_000, 3),
      PadDec(y % 1_000, 3)
    ]
  }

  /** Each TileCache triple of `xy_to_tc` reads back as its coordinate. */
  lemma XyToTcReadsBack(x: u32, y: u32)
    ensures var r := XyToTc(x, y);
      && TcJoin(ParseDec(r[0]), ParseDec(r[1]), ParseDec(r[2])) == x
      && TcJoin(ParseDec(r[3]), ParseDec(r[4]), ParseDec(r[5])) == y
  {
    TcGroups(x);
    TcGroups(y);
  }

  /** `zxy_to_tc_path`: `z/xxx/xxx/xxx/yyy/yyy/yyy.ext`, zoom unpadded. */
  function ZxyToTcPath(z: u8, x: u32, y: u32, ext: string): (r: string) {
    var tc := XyToTc(x, y);
    DecStr(z) + "/" + tc[0] + "/" + tc[1] + "/" + tc[2] + "/" + tc[3] + "/" + tc[4] + "/" + tc[5] + "." + ext
  }

  /** The two MapProxy groups of one coordinate. */
  lemma MpGroups(v: u32)
    ensures MpJoin(ParseDec(PadDec(v / 10_000, 4)), ParseDec(PadDec(v % 10_000, 4))) == v
    ensures |PadDec(v % 10_000, 4)| == 4
    ensures 4 <= |PadDec(v / 10_000, 4)| <= 6
    ensures |PadDec(v / 10_000, 4)| > 4 ==> PadDec(v / 10_000, 4)[0] != '0'
  {
    PadDecReadsBack(v / 10_000, 4);
    PadDecReadsBack(v % 10_000, 4);
    assert Pow10(4) == 10_000;
    assert Pow10(6) == 1_000_000;
    assert v / 10_000 < 1_000_000;
    DecStrFitsWidth(v / 10_000, 6);
  }

  /**
    `xy_to_mp`: four digit groups, two for `x` then two for `y`; the low
    group has exactly four digits and the high group four to six (a `u32`
    has at most 429496 ten-thousands), and a high group longer than four
    digits carries no padding zero. `XyToMpReadsBack` states what the
    groups stand for.
  */
  function XyToMp(x: u32, y: u32): (r: seq<string>)
    ensures |r| == 4
    ensures forall i :: 0 <= i < 4 ==> AllDigits(r[i])
    ensures |r[1]| == |r[3]| == 4
    ensures 4 <= |r[0]| <= 6 && 4 <= |r[2]| <= 6
    ensures |r[0]| > 4 ==> r[0][0] != '0'
    ensures |r[2]| > 4 ==> r[2][0] != '0'
  {
    MpGroups(x);
    MpGroups(y);
    [
      PadDec(x / 10_000, 4),
      PadDec(x % 10_000, 4),
      PadDec(y / 10_000, 4),
      PadDec(y % 10_000, 4)
    ]
  }

  /** Each MapProxy pair of `xy_to_mp` reads back as its coordinate. */
  lemma XyToMpReadsBack(x: u32, y: u32)
    ensures var r := XyToMp(x, y);
      && MpJoin(ParseDec(r[0]), ParseDec(r[1])) == x
      && MpJoin(ParseDec(r[2]), ParseDec(r[3])) == y
  {
    MpGroups(x);
    MpGroups(y);
  }

  /** `zxy_to_mp_path`: `z/xxxx/xxxx/yyyy/yyyy.ext`, zoom unpadded. */
  function ZxyToMpPath(z: u8, x: u32, y: u32, ext: string): (r: string) {
    var mp := XyToMp(x, y);
    DecStr(z) + "/" + mp[0] + "/" + mp[1] + "/" + mp[2] + "/" + mp[3] + "." + ext
  }

  // ---------------------------------------------------------------------
  // Decoding: the partner of the encoders above.
  // ---------------------------------------------------------------------

  /** What a cache path names: zoom, column, row and file extension. */
  datatype PathParts = PathParts(zoom: nat, x: nat, y: nat, ext: string)

  /** Splits `s` into its longest all-digit prefix and the rest. */
  function SplitDigits(s: string): (p: (string, string))
    ensures p.0 + p.1 == s && AllDigits(p.0)
    ensures p.1 == [] || !IsDigit(p.1[0])
  {
    if s != [] && IsDigit(s[0]) then
      var q := SplitDigits(s[1..]);
      ([s[0]] + q.0, q.1)
    else
      ([], s)
  }

  /** A digit string followed by a non-digit splits exactly there. */
  lemma {:induction false} SplitDigitsAt(d: string, rest: string)
    requires AllDigits(d)
    requires rest == [] || !IsDigit(rest[0])
    ensures SplitDigits(d + rest) == (d, rest)
  {
    if d == [] {
      assert d + rest == rest;
    } else {
      assert (d + rest)[0] == d[0];
      assert (d + rest)[1..] == d[1..] + rest;
      SplitDigitsAt(d[1..], rest);
      assert [d[0]] + d[1..] == d;
    }
  }

  /** The path text of a list of groups, each preceded by '/'. */
  function Slashed(groups: seq<string>): (s: string) {
    if groups == [] then "" else "/" + groups[0] + Slashed(groups[1..])
  }

  predicate AllGroups(groups: seq<string>) {
    forall i :: 0 <= i < |groups| ==> |groups[i]| > 0 && AllDigits(groups[i])
  }

  /** The numbers a list of digit groups denotes. */
  function Values(groups: seq<string>): (vs: seq<nat>)
    requires AllGroups(groups)
    ensures |vs| == |groups|
    ensures forall i :: 0 <= i < |groups| ==> vs[i] == ParseDec(groups[i])
  {
    if groups == [] then [] else [ParseDec(groups[0])] + Values(groups[1..])
  }

  /**
    Reads `count` groups, each a '/' followed by one or more digits, from
    the front of `s`; returns their values and the unread rest.
  */
  function ParseGroups(s: string, count: nat): (r: Option<(seq<nat>, string)>)
    ensures r.Some? ==> |r.value.0| == count
    decreases count
  {
    if count == 0 then
      Some(([], s))
    else if s == [] || s[0] != '/' then
      None
    else
      var p := SplitDigits(s[1..]);
      if p.0 == [] then
        None
      else
        match ParseGroups(p.1, count - 1)
        case None => None
        case Some(q) => Some(([ParseDec(p.0)] + q.0, q.1))
  }

  /** One step of `ParseGroups`: a '/' and a digit group followed by a non-digit. */
  lemma ParseGroupsStep(g: string, tail: string, count: nat)
    requires |g| > 0 && AllDigits(g)
    requires tail == [] || !IsDigit(tail[0])
    ensures ParseGroups("/" + (g + tail), count + 1)
         == match ParseGroups(tail, count)
            case None => None
            case Some(q) => Some(([ParseDec(g)] + q.0, q.1))
  {
    var s := "/" + (g + tail);
    assert s[1..] == g + tail;
    SplitDigitsAt(g, tail);
  }

  lemma {:induction false} ParseGroupsSlashed(groups: seq<string>, rest: string)
    requires AllGroups(groups)
    requires rest == [] || !IsDigit(rest[0])
    ensures ParseGroups(Slashed(groups) + rest, |groups|) == Some((Values(groups), rest))
  {
    if groups == [] {
      assert Slashed(groups) + rest == rest;
    } else {
      var tail := Slashed(groups[1..]) + rest;
      assert AllGroups(groups[1..]);
      if groups[1..] != [] {
        assert tail[0] == '/';
      }
      assert Slashed(groups) + rest == "/" + (groups[0] + tail);
      ParseGroupsStep(groups[0], tail, |groups| - 1);
      ParseGroupsSlashed(groups[1..], rest);
      assert Values(groups) == [ParseDec(groups[0])] + Values(groups[1..]);
    }
  }

  /** Decodes `z/g/g/g/g/g/g.ext` (the TileCache layout). */
  function ParseTcPath(s: string): (r: Option<PathParts>) {
    var z := SplitDigits(s);
    if z.0 == [] then
      None
    else
      match ParseGroups(z.1, 6)
      case None => None
      case Some(g) =>
        if g.1 != [] && g.1[0] == '.' then
          var v := g.0;
          Some(PathParts(ParseDec(z.0), TcJoin(v[0], v[1], v[2]), TcJoin(v[3], v[4], v[5]), g.1[1..]))
        else
          None
  }

  /** Decodes `z/g/g/g/g.ext` (the MapProxy layout). */
  function ParseMpPath(s: string): (r: Option<PathParts>) {
    var z := SplitDigits(s);
    if z.0 == [] then
      None
    else
      match ParseGroups(z.1, 4)
      case None => None
      case Some(g) =>
        if g.1 != [] && g.1[0] == '.' then
          var v := g.0;
          Some(PathParts(ParseDec(z.0), MpJoin(v[0], v[1]), MpJoin(v[2], v[3]), g.1[1..]))
        else
          None
  }

  lemma Slashed6(a: string, b: string, c: string, d: string, e: string, f: string)
    ensures Slashed([a, b, c, d, e, f]) == "/" + a + "/" + b + "/" + c + "/" + d + "/" + e + "/" + f
  {
    assert Slashed([f]) == "/" + f by { assert [f][1..] == []; }
    assert Slashed([e, f]) == "/" + e + Slashed([f]) by { assert [e, f][1..] == [f]; }
    assert Slashed([d, e, f]) == "/" + d + Slashed([e, f]) by { assert [d, e, f][1..] == [e, f]; }
    assert Slashed([c, d, e, f]) == "/" + c + Slashed([d, e, f]) by { assert [c, d, e, f][1..] == [d, e, f]; }
    assert Slashed([b, c, d, e, f]) == "/" + b + Slashed([c, d, e, f]) by { assert [b, c, d, e, f][1..] == [c, d, e, f]; }
    assert [a, b, c, d, e, f][1..] == [b, c, d, e, f];
  }

  lemma Slashed4(a: string, b: string, c: string, d: string)
    ensures Slashed([a, b, c, d]) == "/" + a + "/" + b + "/" + c + "/" + d
  {
    assert Slashed([d]) == "/" + d by { assert [d][1..] == []; }
    assert Slashed([c, d]) == "/" + c + Slashed([d]) by { assert [c, d][1..] == [d]; }
    assert Slashed([b, c, d]) == "/" + b + Slashed([c, d]) by { assert [b, c, d][1..] == [c, d]; }
    assert [a, b, c, d][1..] == [b, c, d];
  }

  lemma TcPathShape(z: u8, x: u32, y: u32, ext: string)
    ensures ZxyToTcPath(z, x, y, ext) == DecStr(z) + (Slashed(XyToTc(x, y)) + ("." + ext))
  {
    var tc := XyToTc(x, y);
    assert tc == [tc[0], tc[1], tc[2], tc[3], tc[4], tc[5]];
    Slashed6(tc[0], tc[1], tc[2], tc[3], tc[4], tc[5]);
  }

  lemma MpPathShape(z: u8, x: u32, y: u32, ext: string)
    ensures ZxyToMpPath(z, x, y, ext) == DecStr(z) + (Slashed(XyToMp(x, y)) + ("." + ext))
  {
    var mp := XyToMp(x, y);
    assert mp == [mp[0], mp[1], mp[2], mp[3]];
    Slashed4(mp[0], mp[1], mp[2], mp[3]);
  }

  /**
    A TileCache path determines the zoom, column, row and extension it was
    built from, whatever the extension contains.
  */
  lemma TcPathRoundTrip(z: u8, x: u32, y: u32, ext: string)
    ensures ParseTcPath(ZxyToTcPath(z, x, y, ext)) == Some(PathParts(z, x, y, ext))
  {
    var tc := XyToTc(x, y);
    var rest := "." + ext;
    TcPathShape(z, x, y, ext);
    XyToTcReadsBack(x, y);
    assert AllGroups(tc);
    ParseGroupsSlashed(tc, rest);
    assert Slashed(tc)[0] == '/';
    SplitDigitsAt(DecStr(z), Slashed(tc) + rest);
    DecStrReadsBack(z);
  }

  /** A MapProxy path determines the zoom, column, row and extension it was built from. */
  lemma MpPathRoundTrip(z: u8, x: u32, y: u32, ext: string)
    ensures ParseMpPath(ZxyToMpPath(z, x, y, ext)) == Some(PathParts(z, x, y, ext))
  {
    var mp := XyToMp(x, y);
    var rest := "." + ext;
    MpPathShape(z, x, y, ext);
    XyToMpReadsBack(x, y);
    assert AllGroups(mp);
    ParseGroupsSlashed(mp, rest);
    assert Slashed(mp)[0] == '/';
    SplitDigitsAt(DecStr(z), Slashed(mp) + rest);
    DecStrReadsBack(z);
  }

  /** Two TileCache paths coincide exactly when zoom, column, row and extension do. */
  lemma TcPathInjective(z: u8, x: u32, y: u32, ext: string, z': u8, x': u32, y': u32, ext': string)
    ensures ZxyToTcPath(z, x, y, ext) == ZxyToTcPath(z', x', y', ext')
        <==> z == z' && x == x' && y == y' && ext == ext'
  {
    TcPathRoundTrip(z, x, y, ext);
    TcPathRoundTrip(z', x', y', ext');
  }

  /** Two MapProxy paths coincide exactly when zoom, column, row and extension do. */
  lemma MpPathInjective(z: u8, x: u32, y: u32, ext: string, z': u8, x': u32, y': u32, ext': string)
    ensures ZxyToMpPath(z, x, y, ext) == ZxyToMpPath(z', x', y', ext')
        <==> z == z' && x == x' && y == y' && ext == ext'
  {
    MpPathRoundTrip(z, x, y, ext);
    MpPathRoundTrip(z', x', y', ext');
  }

  lemma TcExampleX()
    ensures XyToTc(3, 4)[..3] == ["000", "000", "003"]
  {
    assert PadDec(0, 3) == "000";
    assert PadDec(3, 3) == "003";
  }

  lemma TcExampleY()
    ensures XyToTc(3, 4)[3..] == ["000", "000", "004"]
  {
    assert PadDec(0, 3) == "000";
    assert PadDec(4, 3) == "004";
  }

  /** The worked example of `xy_to_tc`. */
  lemma TcExample()
    ensures XyToTc(3, 4) == ["000", "000", "003", "000", "000", "004"]
  {
    TcExampleX();
    TcExampleY();
    var r := XyToTc(3, 4);
    assert r == r[..3] + r[3..];
  }

  lemma TcPathExamplePieces()
    ensures ZxyToTcPath(2, 3, 4, "png")
         == "2" + "/" + "000" + "/" + "000" + "/" + "003" + "/" + "000" + "/" + "000" + "/" + "004" + "." + "png"
  {
    TcExample();
    assert DecStr(2) == "2";
  }

  /** The worked example of `zxy_to_tc_path`. */
  lemma TcPathExample()
    ensures ZxyToTcPath(2, 3, 4, "png") == "2/000/000/003/000/000/004.png"
  {
    TcPathExamplePieces();
    assert "2" + "/" + "000" + "/" + "000" + "/" + "003" == "2/000/000/003";
    assert "/" + "000" + "/" + "000" + "/" + "004" + "." + "png" == "/000/000/004.png";
  }

  /** The worked example of `xy_to_mp`. */
  lemma MpExample()
    ensures XyToMp(3, 4) == ["0000", "0003", "0000", "0004"]
  {
    var r := XyToMp(3, 4);
    assert r[0] == "0000" && r[2] == "0000" by {
      assert PadDec(0, 4) == "0000";
    }
    assert r[1] == "0003" by {
      assert PadDec(3, 4) == "0003";
    }
    assert r[3] == "0004" by {
      assert PadDec(4, 4) == "0004";
    }
  }

  /** The worked example of `zxy_to_mp_path`. */
  lemma MpPathExample()
    ensures ZxyToMpPath(2, 3, 4, "png") == "2/0000/0003/0000/0004.png"
  {
    MpExample();
    assert DecStr(2) == "2";
  }

  /** The TileCache groups of coordinates below ten: all zeros but the last digit. */
  lemma TcOfDigits(x: nat, y: nat)
    requires x < 10 && y < 10
    ensures XyToTc(x, y) == ["000", "000", "00" + [DigitChar(x)], "000", "000", "00" + [DigitChar(y)]]
  {
    PadDecDigit(0, 3);
    PadDecDigit(x, 3);
    PadDecDigit(y, 3);
    assert Zeros(2) == "00";
    assert [DigitChar(0)] == "0";
    assert PadDec(0, 3) == "000";
    assert x / 1_000_000 == 0 && (x / 1_000) % 1_000 == 0 && x % 1_000 == x;
    assert y / 1_000_000 == 0 && (y / 1_000) % 1_000 == 0 && y % 1_000 == y;
  }

  lemma ZeroGroupsAfter(c: char)
    ensures [c] + "/000/000/00" == [c, '/', '0', '0', '0', '/', '0', '0', '0', '/', '0', '0']
  {
  }

  /**
    The TileCache path of a zoom and coordinates all below ten: the zoom
    digit, two zero groups, `00` and the x digit, two zero groups, `00` and
    the y digit, then '.' and the extension.
  */
  lemma TcPathOfDigits(z: nat, x: nat, y: nat, ext: string)
    requires z < 10 && x < 10 && y < 10
    ensures ZxyToTcPath(z, x, y, ext)
         == [DigitChar(z), '/', '0', '0', '0', '/', '0', '0', '0', '/', '0', '0']
          + [DigitChar(x), '/', '0', '0', '0', '/', '0', '0', '0', '/', '0', '0']
          + ([DigitChar(y), '.'] + ext)
  {
    TcOfDigits(x, y);
    assert DecStr(z) == [DigitChar(z)];
    ZeroGroupsAfter(DigitChar(z));
    ZeroGroupsAfter(DigitChar(x));
    assert [DigitChar(y)] + "." + ext == [DigitChar(y), '.'] + ext;
  }
}
