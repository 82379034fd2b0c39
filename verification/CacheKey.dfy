/** The byte string the vision agent hashes into its cache key
    (apps/agents/vision/main.py): the context, a NUL, and each image behind its length
    in eight big-endian bytes. */
module CacheKey {
  import opened Wrappers

  type Byte = x: int | 0 <= x < 256
  type Bytes = seq<Byte>

  /** An entry of the request's image list.  A string is decoded as base64 when it is
      valid, and stands for its own UTF-8 bytes when it is not. */
  datatype ImageField = NotText | Text(base64: Option<Bytes>, utf8: Bytes)

  const LENGTH_BYTES := 8

  // ----- big-endian numbers -----

  function Pow256(k: nat): (p: nat)
    ensures p > 0
  {
    if k == 0 then 1 else 256 * Pow256(k - 1)
  }

  function BigEndian(n: nat, k: nat): (r: Bytes)
    ensures |r| == k
  {
    if k == 0 then [] else BigEndian(n / 256, k - 1) + [n % 256]
  }

  function FromBigEndian(bs: Bytes): (n: nat)
  {
    if bs == [] then 0 else 256 * FromBigEndian(bs[..|bs| - 1]) + bs[|bs| - 1]
  }

  lemma {:induction false} BigEndianRoundTrip(n: nat, k: nat)
    requires n < Pow256(k)
    ensures FromBigEndian(BigEndian(n, k)) == n
  {
    if k > 0 {
      BigEndianRoundTrip(n / 256, k - 1);
      var r := BigEndian(n, k);
      assert r[..k - 1] == BigEndian(n / 256, k - 1);
    }
  }

  // ----- the encoding -----

  /** The bytes of one entry of the list, if it is text. */
  function RawOf(image: ImageField): (r: seq<Bytes>)
  {
    match image case NotText => [] case Text(base64, utf8) => [if base64.Some? then base64.value else utf8]
  }

  function Raw(images: seq<ImageField>): (r: seq<Bytes>)
  {
    if images == [] then [] else RawOf(images[0]) + Raw(images[1..])
  }

  /** The images of a request, entry by entry: what is no text is skipped, valid Base64 is
      decoded, and other text stands for itself. */
  lemma {:induction false} RawAppend(images: seq<ImageField>, more: seq<ImageField>)
    ensures Raw(images + more) == Raw(images) + Raw(more)
  {
    hide Raw, RawOf;
    if images == [] {
      assert images + more == more;
      RawOfNone();
    } else {
      var first, rest := images[0], images[1..];
      RawAppend(rest, more);
      assert images == [first] + rest && images + more == [first] + (rest + more);
      RawCons(first, rest);
      RawCons(first, rest + more);
    }
  }

  lemma {:induction false} RawCons(image: ImageField, rest: seq<ImageField>)
    ensures Raw([image] + rest) == RawOf(image) + Raw(rest)
  {
    assert ([image] + rest)[1..] == rest;
  }

  lemma RawOfOne(bytes: Bytes, utf8: Bytes)
    ensures Raw([NotText]) == []
    ensures Raw([Text(Some(bytes), utf8)]) == [bytes]
    ensures Raw([Text(None, utf8)]) == [utf8]
  {
    assert [NotText][1..] == [];
    assert [Text(Some(bytes), utf8)][1..] == [] && [Text(None, utf8)][1..] == [];
  }

  /** `to_bytes(8, "big")` raises on longer images. */
  predicate Fits(raws: seq<Bytes>) {
    forall i :: 0 <= i < |raws| ==> |raws[i]| < Pow256(LENGTH_BYTES)
  }

  function Frames(raws: seq<Bytes>): (r: Bytes)
  {
    if raws == [] then [] else BigEndian(|raws[0]|, LENGTH_BYTES) + raws[0] + Frames(raws[1..])
  }

  function Encoding(context: Bytes, raws: seq<Bytes>): (r: Bytes)
  {
    context + [0] + Frames(raws)
  }

  lemma {:induction false} FramesAppend(raws: seq<Bytes>, raw: Bytes)
    ensures Frames(raws + [raw]) == Frames(raws) + BigEndian(|raw|, LENGTH_BYTES) + raw
  {
    if raws == [] {
      assert Frames([raw][1..]) == [];
    } else {
      FramesAppend(raws[1..], raw);
      assert (raws + [raw])[1..] == raws[1..] + [raw];
    }
  }

  lemma RawStep(images: seq<ImageField>, i: nat)
    requires i < |images|
    ensures Raw(images[i..]) == RawOf(images[i]) + Raw(images[i + 1..])
  {
    assert images[i..][1..] == images[i + 1..];
  }

  lemma RawOfNone()
    ensures Raw([]) == []
  {
  }

  lemma FitsStep(done: seq<Bytes>, raw: Bytes, rest: seq<Bytes>)
    requires Fits(done)
    ensures |raw| < Pow256(LENGTH_BYTES) ==> Fits(done + [raw])
    ensures |raw| >= Pow256(LENGTH_BYTES) ==> !Fits(done + ([raw] + rest))
  {
    hide Pow256;
    assert (done + ([raw] + rest))[|done|] == raw;
  }

  /** The updates of `_cache_key`, in order; None when a length does not fit. */
  method CacheKeyBytes(context: Bytes, images: seq<ImageField>) returns (digest: Option<Bytes>)
    ensures digest == if Fits(Raw(images)) then Some(Encoding(context, Raw(images))) else None
  {
    hide Frames, BigEndian, Pow256, Raw, Fits;
    var bytes := context + [0];
    ghost var done: seq<Bytes> := [];
    FramesOfNone();
    NothingFits();
    assert images[0..] == images;
    for i := 0 to |images|
      invariant done + Raw(images[i..]) == Raw(images) && Fits(done)
      invariant bytes == context + [0] + Frames(done)
    {
      RawStep(images, i);
      if images[i].NotText? { continue; }
      var raw := if images[i].base64.Some? then images[i].base64.value else images[i].utf8;
      FitsStep(done, raw, Raw(images[i + 1..]));
      if |raw| >= Pow256(LENGTH_BYTES) { return None; }
      FramesAppend(done, raw);
      bytes := bytes + BigEndian(|raw|, LENGTH_BYTES);
      bytes := bytes + raw;
      assert bytes == context + [0] + Frames(done + [raw]);
      done := done + [raw];
    }
    RawOfNone();
    assert images[|images|..] == [] && done + [] == done;
    digest := Some(bytes);
  }

  lemma FramesOfNone()
    ensures Frames([]) == []
  {
  }

  // ----- a decoder -----

  function DecodeFrames(bs: Bytes): (r: Option<seq<Bytes>>)
    decreases |bs|
  {
    if bs == [] then Some([])
    else if |bs| < LENGTH_BYTES then None
    else
      var n := FromBigEndian(bs[..LENGTH_BYTES]);
      if |bs| < LENGTH_BYTES + n then None
      else match DecodeFrames(bs[LENGTH_BYTES + n..])
        case None => None
        case Some(rest) => Some([bs[LENGTH_BYTES..LENGTH_BYTES + n]] + rest)
  }

  function Decode(bs: Bytes): (r: Option<(Bytes, seq<Bytes>)>)
  {
    if bs == [] then None
    else if bs[0] == 0 then
      match DecodeFrames(bs[1..]) case None => None case Some(raws) => Some(([], raws))
    else
      match Decode(bs[1..]) case None => None case Some((c, raws)) => Some(([bs[0]] + c, raws))
  }

  lemma {:induction false} FramesRoundTrip(raws: seq<Bytes>)
    requires Fits(raws)
    ensures DecodeFrames(Frames(raws)) == Some(raws)
  {
    if raws != [] {
      var head, bs := BigEndian(|raws[0]|, LENGTH_BYTES), Frames(raws);
      BigEndianRoundTrip(|raws[0]|, LENGTH_BYTES);
      assert bs[..LENGTH_BYTES] == head;
      assert bs[LENGTH_BYTES..LENGTH_BYTES + |raws[0]|] == raws[0];
      assert bs[LENGTH_BYTES + |raws[0]|..] == Frames(raws[1..]);
      assert forall i :: 0 <= i < |raws| - 1 ==> raws[1..][i] == raws[i + 1];
      FramesRoundTrip(raws[1..]);
      assert [raws[0]] + raws[1..] == raws;
    }
  }

  /** MAIN: the hashed bytes decode to the context and the raw images they came from. */
  lemma {:induction false} EncodingRoundTrip(context: Bytes, raws: seq<Bytes>)
    requires 0 !in context && Fits(raws)
    ensures Decode(Encoding(context, raws)) == Some((context, raws))
  {
    var bs := Encoding(context, raws);
    if context == [] {
      assert bs[1..] == Frames(raws);
      FramesRoundTrip(raws);
    } else {
      assert bs[1..] == Encoding(context[1..], raws);
      EncodingRoundTrip(context[1..], raws);
      assert [context[0]] + context[1..] == context;
    }
  }

  /** MAIN: without a NUL in the contexts, equal hashed bytes mean equal requests. */
  lemma UniquelyDecodable(c: Bytes, raws: seq<Bytes>, c': Bytes, raws': seq<Bytes>)
    requires 0 !in c && 0 !in c' && Fits(raws) && Fits(raws')
    requires Encoding(c, raws) == Encoding(c', raws')
    ensures c == c' && raws == raws'
  {
    EncodingRoundTrip(c, raws);
    EncodingRoundTrip(c', raws');
  }

  lemma SplitEncodings(c: Bytes, f: Bytes, c': Bytes, f': Bytes)
    requires |c| < |c'|
    ensures c + [0] + f == c' + [0] + f' <==> c'[..|c| + 1] == c + [0] && f == c'[|c| + 1..] + [0] + f'
  {
    var head, tail := c'[..|c| + 1], c'[|c| + 1..] + [0] + f';
    assert c' + [0] + f' == head + tail;
    if (c + [0]) + f == head + tail {
      assert c + [0] == ((c + [0]) + f)[..|c| + 1] == (head + tail)[..|c| + 1] == head;
      assert f == ((c + [0]) + f)[|c| + 1..] == (head + tail)[|c| + 1..] == tail;
    }
  }

  /** Equal encodings with the common prefix taken off. */
  lemma {:induction false} EncodingsEqualIff(c: Bytes, raws: seq<Bytes>, c': Bytes, raws': seq<Bytes>)
    requires Fits(raws) && Fits(raws') && |c| <= |c'|
    ensures Encoding(c, raws) == Encoding(c', raws') <==>
              || (c == c' && raws == raws')
              || (|c| < |c'| && c'[..|c| + 1] == c + [0] && Frames(raws) == c'[|c| + 1..] + [0] + Frames(raws'))
  {
    hide Frames, Pow256;
    if |c| < |c'| {
      SplitEncodings(c, Frames(raws), c', Frames(raws'));
    } else {
      var e, e' := Encoding(c, raws), Encoding(c', raws');
      FramesRoundTrip(raws);
      FramesRoundTrip(raws');
      assert e[..|c|] == c && e'[..|c|] == c';
      assert e[|c| + 1..] == Frames(raws) && e'[|c| + 1..] == Frames(raws');
    }
  }

  // ----- which contexts can collide -----

  /** `k` zero bytes. */
  function Zeros(k: nat): (r: Bytes)
    ensures |r| == k
  {
    seq(k, i => 0)
  }

  lemma ZerosAppend(m: nat, n: nat)
    ensures Zeros(m) + Zeros(n) == Zeros(m + n)
  {
  }

  /** One image behind its length. */
  function Frame(raw: Bytes): (r: Bytes)
    ensures |r| == LENGTH_BYTES + |raw|
  {
    BigEndian(|raw|, LENGTH_BYTES) + raw
  }

  lemma {:induction false} FramesCons(raw: Bytes, raws: seq<Bytes>)
    ensures Frames([raw] + raws) == Frame(raw) + Frames(raws)
    ensures Fits([raw] + raws) <==> |raw| < Pow256(LENGTH_BYTES) && Fits(raws)
  {
    hide Pow256, BigEndian;
    assert ([raw] + raws)[1..] == raws;
    assert Fits([raw] + raws) ==> Fits(raws) && |raw| < Pow256(LENGTH_BYTES) by {
      assert ([raw] + raws)[0] == raw;
      assert forall i :: 0 <= i < |raws| ==> raws[i] == ([raw] + raws)[i + 1];
    }
  }

  lemma FramesOfOne(raw: Bytes)
    requires |raw| < Pow256(LENGTH_BYTES)
    ensures Frames([raw]) == Frame(raw) && Fits([raw])
  {
    hide Pow256, BigEndian;
    FramesCons(raw, []);
    FramesOfNone();
    assert [raw] + [] == [raw];
    assert Frame(raw) + [] == Frame(raw);
  }

  lemma {:induction false} BigEndianOfZero(k: nat)
    ensures BigEndian(0, k) == Zeros(k)
  {
    if k > 0 {
      BigEndianOfZero(k - 1);
      ZerosAppend(k - 1, 1);
      assert Zeros(1) == [0];
    }
  }

  lemma BigEndianStep(n: nat, k: nat)
    ensures BigEndian(256 * n, k + 1) == BigEndian(n, k) + [0]
  {
    assert 256 * n / 256 == n && 256 * n % 256 == 0;
  }

  lemma PowZero(n: nat)
    ensures n * Pow256(0) == n
  {
  }

  lemma PowStep(n: nat, j: nat)
    requires j > 0
    ensures n * Pow256(j) == 256 * (n * Pow256(j - 1))
  {
    Regroup(n, Pow256(j - 1));
  }

  /** Shifting a number by `j` bytes. */
  lemma {:induction false} BigEndianShifts(n: nat, k: nat, j: nat)
    ensures BigEndian(n * Pow256(j), k + j) == BigEndian(n, k) + Zeros(j)
  {
    hide Pow256, BigEndian;
    if j > 0 {
      BigEndianShifts(n, k, j - 1);
      PowStep(n, j);
      BigEndianStep(n * Pow256(j - 1), k + j - 1);
      ZerosAppend(j - 1, 1);
      assert Zeros(1) == [0];
      assert BigEndian(n, k) + Zeros(j - 1) + [0] == BigEndian(n, k) + Zeros(j);
    } else {
      PowZero(n);
      assert BigEndian(n, k) + Zeros(0) == BigEndian(n, k);
    }
  }

  lemma Regroup(n: nat, p: nat)
    ensures n * (256 * p) == 256 * (n * p)
  {
  }

  /** Every byte string of a length is a number of that many bytes. */
  lemma {:induction false} FromBigEndianRoundTrip(bs: Bytes)
    ensures FromBigEndian(bs) < Pow256(|bs|) && BigEndian(FromBigEndian(bs), |bs|) == bs
  {
    if bs != [] {
      var k := |bs| - 1;
      FromBigEndianRoundTrip(bs[..k]);
      var n := FromBigEndian(bs[..k]);
      assert (256 * n + bs[k]) / 256 == n && (256 * n + bs[k]) % 256 == bs[k];
      assert bs[..k] + [bs[k]] == bs;
    }
  }

  lemma SmallPowers()
    ensures Pow256(0) == 1 && Pow256(1) == 256 && Pow256(2) == 0x1_0000 && Pow256(3) == 0x100_0000
    ensures Pow256(4) == 0x1_0000_0000 && Pow256(5) == 0x100_0000_0000 && Pow256(6) == 0x1_0000_0000_0000
    ensures Pow256(7) == 0x100_0000_0000_0000 && Pow256(8) == 0x1_0000_0000_0000_0000
  {
    assert Pow256(4) == 0x1_0000_0000;
  }

  /** The powers in between leave room for two more frames. */
  lemma {:induction false} PowerBounds(k: nat)
    requires 1 <= k <= 7
    ensures 256 <= Pow256(k) < Pow256(LENGTH_BYTES)
  {
    SmallPowers();
    hide Pow256;
    assert k in {1, 2, 3, 4, 5, 6, 7};
  }

  /** Image lists `raws'` and `raws` such that the frames of `raws'` are `m` bytes more
      than those of `raws`: whatever is short of `m` bytes can be completed. */
  lemma Filler(m: nat) returns (z: Bytes, raws': seq<Bytes>, raws: seq<Bytes>)
    requires m < Pow256(LENGTH_BYTES)
    ensures |z| == m && Fits(raws) && Fits(raws') && Frames(raws') == z + Frames(raws)
  {
    hide Frames, Pow256, BigEndian, Fits;
    NothingFits();
    FramesOfNone();
    if m == 0 {
      z, raws', raws := [], [], [];
      assert [] + Frames([]) == Frames([]);
    } else if m >= LENGTH_BYTES {
      var raw := Zeros(m - LENGTH_BYTES);
      FramesOfOne(raw);
      z, raws', raws := Frame(raw), [raw], [];
      assert z + [] == z;
    } else {
      z, raws', raws := SplitHeader(m);
    }
  }

  lemma NothingFits()
    ensures Fits([])
  {
  }

  /** Fewer than eight bytes: the length field of the frame is cut after its only
      non-zero byte, and the rest of the frame is two frames of its own. */
  lemma SplitHeader(m: nat) returns (z: Bytes, raws': seq<Bytes>, raws: seq<Bytes>)
    requires 1 <= m <= 7
    ensures |z| == m && Fits(raws) && Fits(raws') && Frames(raws') == z + Frames(raws)
  {
    hide Frames, Pow256, BigEndian, Fits;
    var j := LENGTH_BYTES - m;
    var len := Pow256(j);
    PowerBounds(j);
    var last := Zeros(len - m - LENGTH_BYTES);
    var raw := Zeros(m) + Frame(last);
    assert |raw| == len;
    BigEndianShifts(1, m, j);
    z := BigEndian(1, m);
    assert BigEndian(len, LENGTH_BYTES) == z + Zeros(j);
    raws', raws := [raw], [[]] + [last];
    FramesOfOne(raw);
    FramesOfOne(last);
    FramesCons([], [last]);
    PositivePower();
    EmptyFrame();
    ZerosAppend(j, m);
    assert (z + Zeros(j)) + (Zeros(m) + Frame(last)) == z + ((Zeros(j) + Zeros(m)) + Frame(last));
  }

  lemma PositivePower()
    ensures 0 < Pow256(LENGTH_BYTES)
  {
  }

  lemma EmptyFrame()
    ensures Frame([]) == Zeros(LENGTH_BYTES)
  {
    BigEndianOfZero(LENGTH_BYTES);
    assert Frame([]) == BigEndian(0, LENGTH_BYTES) + [];
  }

  /** MAIN: every byte string can be put before the frames of some images so that the
      whole is again the frames of some images. */
  lemma {:induction false} AnyPrefixCompletes(u: Bytes) returns (raws: seq<Bytes>, raws': seq<Bytes>)
    ensures Fits(raws) && Fits(raws') && Frames(raws) == u + Frames(raws')
    decreases |u|
  {
    hide Frames, Pow256, BigEndian, FromBigEndian, Fits;
    NothingFits();
    FramesOfNone();
    if u == [] {
      raws, raws' := [], [];
      assert u + Frames([]) == Frames([]);
    } else if |u| < LENGTH_BYTES {
      if u == Zeros(|u|) {
        raws, raws' := CompleteZeros(|u|);
      } else {
        raws, raws' := CompleteHeader(u);
      }
    } else {
      var n, body := FromBigEndian(u[..LENGTH_BYTES]), u[LENGTH_BYTES..];
      FromBigEndianRoundTrip(u[..LENGTH_BYTES]);
      assert u == BigEndian(n, LENGTH_BYTES) + body;
      if |body| >= n {
        var raw, rest := body[..n], body[n..];
        raws, raws' := AnyPrefixCompletes(rest);
        FramesCons(raw, raws);
        raws := [raw] + raws;
        assert u == Frame(raw) + rest;
        assert Frame(raw) + (rest + Frames(raws')) == u + Frames(raws');
      } else {
        var z, longer, shorter := Filler(n - |body|);
        FramesCons(body + z, shorter);
        raws, raws' := [body + z] + shorter, longer;
        assert Frame(body + z) == u + z;
        assert (u + z) + Frames(shorter) == u + (z + Frames(shorter));
      }
    }
  }

  /** Part of a length field, not all zero: zeros complete it to a number that is large
      enough to take in the rest of the empty frame they came from. */
  lemma CompleteHeader(u: Bytes) returns (raws: seq<Bytes>, raws': seq<Bytes>)
    requires 1 <= |u| <= 7 && u != Zeros(|u|)
    ensures Fits(raws) && Fits(raws') && Frames(raws) == u + Frames(raws')
  {
    hide Frames, Pow256, BigEndian, FromBigEndian, Fits;
    var k, j := |u|, LENGTH_BYTES - |u|;
    var top := FromBigEndian(u);
    var n := top * Pow256(j);
    FromBigEndianRoundTrip(u);
    BigEndianOfZero(k);
    assert top > 0;
    HeaderBounds(top, k, j);
    BigEndianShifts(top, k, j);
    assert BigEndian(n, LENGTH_BYTES) == u + Zeros(j);
    var z, longer, shorter := Filler(n - k);
    FramesCons(Zeros(k) + z, shorter);
    FramesCons([], longer);
    PositivePower();
    EmptyFrame();
    ZerosAppend(j, k);
    raws, raws' := [Zeros(k) + z] + shorter, [[]] + longer;
    assert Frame(Zeros(k) + z) == (u + Zeros(j)) + (Zeros(k) + z);
    assert ((u + Zeros(j)) + (Zeros(k) + z)) + Frames(shorter) == u + ((Zeros(j) + Zeros(k)) + (z + Frames(shorter)));
  }

  lemma {:induction false} HeaderBounds(top: nat, k: nat, j: nat)
    requires 0 < top < Pow256(k) && 1 <= k <= 7 && k + j == LENGTH_BYTES
    ensures k <= top * Pow256(j) < Pow256(LENGTH_BYTES)
  {
    PowerBounds(j);
    PowersMultiply(k, j);
    hide Pow256;
    Monotone(top, Pow256(k), Pow256(j));
  }

  lemma Monotone(a: nat, b: nat, p: nat)
    requires 0 < a < b && p > 0
    ensures p <= a * p < b * p
  {
  }

  lemma {:induction false} PowersMultiply(k: nat, j: nat)
    ensures Pow256(k) * Pow256(j) == Pow256(k + j)
  {
    if j > 0 {
      PowersMultiply(k, j - 1);
      Regroup(Pow256(k), Pow256(j - 1));
    }
  }

  /** Part of a length field, all zero: a length of one power of 256 completes it to the
      number one, which takes one byte; then an empty frame and one last frame. */
  lemma CompleteZeros(k: nat) returns (raws: seq<Bytes>, raws': seq<Bytes>)
    requires 1 <= k <= 7
    ensures Fits(raws) && Fits(raws') && Frames(raws) == Zeros(k) + Frames(raws')
  {
    hide Frames, Pow256, BigEndian, FromBigEndian, Fits;
    var j := LENGTH_BYTES - k;
    var len := Pow256(k);
    PowerBounds(k);
    var last := Zeros(len - (j + 1) - LENGTH_BYTES);
    var raw := Zeros(j + 1) + Frame(last);
    assert |raw| == len;
    BigEndianShifts(1, j, k);
    PowerBounds(j);
    BigEndianPads(1, j, k);
    assert BigEndian(len, LENGTH_BYTES) == BigEndian(1, j) + Zeros(k);
    assert BigEndian(1, LENGTH_BYTES) == Zeros(k) + BigEndian(1, j);
    FramesOfOne(raw);
    FramesOfOne(last);
    PositivePower();
    FramesCons([], [last]);
    FramesCons([0], [[]] + [last]);
    SmallImage();
    EmptyFrame();
    raws, raws' := [[0]] + ([[]] + [last]), [raw];
    ZerosAppend(k, j + 1);
    ZerosAppend(1, LENGTH_BYTES);
    assert Zeros(1) == [0];
    calc {
      Zeros(k) + Frames(raws');
      Zeros(k) + ((BigEndian(1, j) + Zeros(k)) + (Zeros(j + 1) + Frame(last)));
      (Zeros(k) + BigEndian(1, j)) + ((Zeros(k) + Zeros(j + 1)) + Frame(last));
      BigEndian(1, LENGTH_BYTES) + (([0] + Zeros(LENGTH_BYTES)) + Frame(last));
      (BigEndian(1, LENGTH_BYTES) + [0]) + (Zeros(LENGTH_BYTES) + Frame(last));
      Frames(raws);
    }
  }

  lemma SmallImage()
    ensures 1 < Pow256(LENGTH_BYTES)
  {
    PowerBounds(1);
  }

  /** More room for a number is zeros in front of it. */
  lemma {:induction false} BigEndianPads(n: nat, j: nat, k: nat)
    requires n < Pow256(j)
    ensures BigEndian(n, k + j) == Zeros(k) + BigEndian(n, j)
  {
    if j == 0 {
      BigEndianOfZero(k);
      assert Zeros(k) + [] == Zeros(k);
    } else {
      BigEndianPads(n / 256, j - 1, k);
      assert Zeros(k) + BigEndian(n / 256, j - 1) + [n % 256] == Zeros(k) + BigEndian(n, j);
    }
  }

  /** Two different requests with these contexts feed the same bytes to the hash. */
  ghost predicate CanCollide(c: Bytes, c': Bytes) {
    exists raws, raws' :: Fits(raws) && Fits(raws') && (c != c' || raws != raws')
        && Encoding(c, raws) == Encoding(c', raws')
  }

  /** MAIN: different requests can have the same bytes exactly when one context goes on
      with a NUL where the other one ends. */
  lemma CollisionIff(c: Bytes, c': Bytes)
    requires |c| <= |c'|
    ensures CanCollide(c, c') <==> |c| < |c'| && c'[..|c| + 1] == c + [0]
  {
    hide Frames, Pow256, Fits;
    if |c| < |c'| && c'[..|c| + 1] == c + [0] {
      var raws, raws' := AnyPrefixCompletes(c'[|c| + 1..] + [0]);
      EncodingsEqualIff(c, raws, c', raws');
    }
    if raws, raws' :|
        Fits(raws) && Fits(raws') && (c != c' || raws != raws') && Encoding(c, raws) == Encoding(c', raws') {
      EncodingsEqualIff(c, raws, c', raws');
    }
  }

  /** A NUL in the context does collide: eight NULs and no image against the empty
      context and one empty image. */
  lemma NulContextCollides()
    ensures var c': Bytes := [0, 0, 0, 0, 0, 0, 0, 0]; Encoding([], [[]]) == Encoding(c', [])
  {
    assert BigEndian(0, 8) == [0, 0, 0, 0, 0, 0, 0, 0] by {
      assert BigEndian(0, 1) == [0];
      assert BigEndian(0, 2) == [0, 0];
      assert BigEndian(0, 4) == [0, 0, 0, 0];
      assert BigEndian(0, 6) == [0, 0, 0, 0, 0, 0];
    }
    var raws: seq<Bytes> := [[]];
    assert Frames(raws[1..]) == [];
    assert Frames(raws) == BigEndian(0, 8);
  }
}
