// utils/random.go: rejection sampling of random bytes into a 62-letter alphabet.
module RandomStrings {

  type byte = b: int | 0 <= b < 256

  const DIGITS := "0123456789"
  const UPPER := "ABCDEFGHIJKLMNOPQRSTUVWXYZ"
  const LOWER := "abcdefghijklmnopqrstuvwxyz"
  const CHARSET := DIGITS + UPPER + LOWER
  const N := 62
  const THRESHOLD := 248

  // What one call of rand.Read gives: it fills the whole buffer or fails.
  datatype Read = Bytes(data: seq<byte>) | Failed

  // Waiting: more reads are needed than the list holds.
  datatype Outcome = Done(text: string) | Waiting

  function Letter(b: byte): char {
    assert |CHARSET| == N;
    CHARSET[b % N]
  }

  function Image(bs: seq<byte>): (s: string)
    ensures |s| == |bs| && forall k :: 0 <= k < |bs| ==> s[k] == Letter(bs[k])
  {
    seq(|bs|, k requires 0 <= k < |bs| => Letter(bs[k]))
  }

  // All the bytes read before the first failure.
  function Stream(chunks: seq<Read>): seq<byte> {
    if |chunks| == 0 || chunks[0].Failed? then [] else chunks[0].data + Stream(chunks[1..])
  }

  function Kept(bs: seq<byte>): seq<byte> {
    if |bs| == 0 then []
    else (if bs[0] < THRESHOLD then [bs[0]] else []) + Kept(bs[1..])
  }

  lemma {:induction false} KeptConcat(a: seq<byte>, b: seq<byte>)
    ensures Kept(a + b) == Kept(a) + Kept(b)
  {
    if |a| == 0 {
      assert a + b == b;
    } else {
      assert (a + b)[1..] == a[1..] + b;
      KeptConcat(a[1..], b);
    }
  }

  lemma {:induction false} StreamSplit(chunks: seq<Read>, i: nat)
    requires i <= |chunks| && forall k :: 0 <= k < i ==> chunks[k].Bytes?
    ensures Stream(chunks) == Stream(chunks[..i]) + Stream(chunks[i..])
  {
    if i == 0 {
      assert chunks[..0] == [] && chunks[0..] == chunks;
    } else {
      assert chunks[..i][1..] == chunks[1..][..i - 1] && chunks[i..] == chunks[1..][i - 1..];
      StreamSplit(chunks[1..], i - 1);
    }
  }

  lemma StreamNext(chunks: seq<Read>, i: nat)
    requires i < |chunks| && forall k :: 0 <= k <= i ==> chunks[k].Bytes?
    ensures Stream(chunks[..i + 1]) == Stream(chunks[..i]) + chunks[i].data
  {
    var done := chunks[..i + 1];
    StreamSplit(done, i);
    assert done[..i] == chunks[..i] && done[i..] == [chunks[i]];
    assert [chunks[i]][1..] == [];
  }

  lemma StreamEnds(chunks: seq<Read>, i: nat)
    requires i <= |chunks| && forall k :: 0 <= k < i ==> chunks[k].Bytes?
    requires i < |chunks| ==> chunks[i].Failed?
    ensures Stream(chunks) == Stream(chunks[..i])
  {
    StreamSplit(chunks, i);
  }

  lemma KeptOne(b: byte)
    ensures Kept([b]) == if b < THRESHOLD then [b] else []
  {
    assert [b][1..] == [];
  }

  lemma NothingYet(chunks: seq<Read>)
    ensures Kept(Stream(chunks[..0])) == [] && Image([]) == "" && Kept([]) == []
  {
  }

  // The letters of the first length accepted bytes, across all reads.
  method GenerateRandomString(length: int, chunks: seq<Read>) returns (r: Outcome)
    requires forall k :: 0 <= k < |chunks| && chunks[k].Bytes? ==> |chunks[k].data| == length
    ensures length <= 0 ==> r == Done("")
    ensures 0 < length <= |Kept(Stream(chunks))| ==> r == Done(Image(Kept(Stream(chunks))[..length]))
    ensures 0 < length && length > |Kept(Stream(chunks))| ==> r == if Failed in chunks then Done("") else Waiting
  {
    if length <= 0 {
      return Done("");
    }
    hide Kept, Stream, Image;
    var out := "";
    var buf := new byte[length];
    var i := 0;
    NothingYet(chunks);
    while |out| < length
      invariant 0 <= i <= |chunks|
      invariant forall k :: 0 <= k < i ==> chunks[k].Bytes?
      invariant |out| <= |Kept(Stream(chunks[..i]))| && out == Image(Kept(Stream(chunks[..i]))[..|out|])
      invariant |out| <= length && (|out| < length ==> |out| == |Kept(Stream(chunks[..i]))|)
      decreases |chunks| - i
    {
      ghost var before := Kept(Stream(chunks[..i]));
      assert before[..|before|] == before;
      if i == |chunks| {
        StreamEnds(chunks, i);
        return Waiting;
      }
      if chunks[i].Failed? {
        StreamEnds(chunks, i);
        return Done("");
      }
      ReadInto(buf, chunks[i].data);
      out := Fill(out, length, buf, before);
      StreamNext(chunks, i);
      KeptConcat(Stream(chunks[..i]), chunks[i].data);
      i := i + 1;
    }
    StreamSplit(chunks, i);
    KeptConcat(Stream(chunks[..i]), Stream(chunks[i..]));
    assert Kept(Stream(chunks))[..length] == Kept(Stream(chunks[..i]))[..length];
    return Done(out);
  }

  method ReadInto(buf: array<byte>, data: seq<byte>)
    requires |data| == buf.Length
    modifies buf
    ensures buf[..] == data
  {
    forall k | 0 <= k < buf.Length {
      buf[k] := data[k];
    }
  }

  // One pass over the buffer, stopping once the string is complete.
  method Fill(out0: string, length: nat, buf: array<byte>, ghost before: seq<byte>) returns (out: string)
    requires |out0| < length && out0 == Image(before)
    ensures |out| <= length && |out| <= |before + Kept(buf[..])|
    ensures out == Image((before + Kept(buf[..]))[..|out|])
    ensures |out| < length ==> |out| == |before + Kept(buf[..])|
  {
    hide Kept, Image, Letter;
    out := out0;
    var j := 0;
    NothingYet([]);
    assert before + [] == before;
    while j < buf.Length
      invariant 0 <= j <= buf.Length
      invariant |out| < length && out == Image(before + Kept(buf[..j]))
    {
      ghost var sofar := before + Kept(buf[..j]);
      KeptConcat(buf[..j], [buf[j]]);
      KeptOne(buf[j]);
      assert buf[..j + 1] == buf[..j] + [buf[j]];
      if buf[j] < THRESHOLD {
        assert before + Kept(buf[..j + 1]) == sofar + [buf[j]];
        ImageNext(sofar, buf[j]);
        out := out + [Letter(buf[j])];
        if |out| == length {
          KeptConcat(buf[..j + 1], buf[j + 1..]);
          assert buf[..] == buf[..j + 1] + buf[j + 1..];
          assert (before + Kept(buf[..]))[..|out|] == before + Kept(buf[..j + 1]);
          return;
        }
      }
      j := j + 1;
    }
    assert buf[..j] == buf[..];
    assert (before + Kept(buf[..]))[..|out|] == before + Kept(buf[..]);
  }

  lemma ImageNext(bs: seq<byte>, b: byte)
    ensures Image(bs + [b]) == Image(bs) + [Letter(b)]
  {
    hide Letter;
  }

  // No letter is favoured

  predicate InCharset(s: string) {
    forall k :: 0 <= k < |s| ==> s[k] in CHARSET
  }

  function Code(i: nat): nat {
    if i < 10 then 48 + i else if i < 36 then 55 + i else 61 + i
  }

  lemma DigitCodes(i: nat)
    requires i < 10
    ensures |DIGITS| == 10 && DIGITS[i] as int == 48 + i
  {
  }

  lemma UpperCodes(i: nat)
    requires i < 26
    ensures |UPPER| == 26 && UPPER[i] as int == 65 + i
  {
  }

  lemma LowerCodes(i: nat)
    requires i < 26
    ensures |LOWER| == 26 && LOWER[i] as int == 97 + i
  {
  }

  lemma CharsetCodes(i: nat)
    requires i < 62
    ensures |CHARSET| == 62 && CHARSET[i] as int == Code(i)
  {
    hide DIGITS, UPPER, LOWER;
    DigitCodes(0);
    UpperCodes(0);
    LowerCodes(0);
    if i < 10 {
      DigitCodes(i);
    } else if i < 36 {
      UpperCodes(i - 10);
    } else {
      LowerCodes(i - 36);
    }
  }

  lemma SameLetter(b: byte, i: nat)
    requires i < 62
    ensures |CHARSET| == 62 && (Letter(b) == CHARSET[i] <==> b % 62 == i)
  {
    CharsetCodes(b % N);
    CharsetCodes(i);
  }

  // The accepted bytes that give the letter c.
  function LetterBytes(c: char): set<byte> {
    set b: byte | b < THRESHOLD && Letter(b) == c
  }

  lemma InLetterBytes(c: char, b: byte)
    ensures b in LetterBytes(c) <==> b < 248 && Letter(b) == c
  {
    hide Letter;
  }

  lemma FourBytesEach(i: nat)
    requires i < 62
    ensures |CHARSET| == 62 && |LetterBytes(CHARSET[i])| == 4
  {
    hide *;
    SameLetter(i, i);
    var four: set<byte> := {i, i + 62, i + 124, i + 186};
    forall b: byte
      ensures b in LetterBytes(CHARSET[i]) <==> b in four
    {
      InLetterBytes(CHARSET[i], b);
      SameLetter(b, i);
    }
    assert LetterBytes(CHARSET[i]) == four;
  }

  // The runs of accepted bytes that give the string s.
  function Preimages(s: string): set<seq<byte>> {
    if s == "" then {[]} else Prepend(LetterBytes(s[0]), Preimages(s[1..]))
  }

  function Prepend(heads: set<byte>, tails: set<seq<byte>>): set<seq<byte>> {
    set b, rest | b in heads && rest in tails :: [b] + rest
  }

  lemma InPrepend(heads: set<byte>, tails: set<seq<byte>>, bs: seq<byte>)
    ensures bs in Prepend(heads, tails) <==> |bs| > 0 && bs[0] in heads && bs[1..] in tails
  {
    if |bs| > 0 {
      assert bs == [bs[0]] + bs[1..];
    }
  }

  lemma KeptStep(bs: seq<byte>)
    requires |bs| > 0
    ensures Kept(bs) == bs <==> bs[0] < 248 && Kept(bs[1..]) == bs[1..]
  {
    KeptNoLonger(bs[1..]);
    assert bs == [bs[0]] + bs[1..];
  }

  lemma {:induction false} KeptNoLonger(bs: seq<byte>)
    ensures |Kept(bs)| <= |bs|
  {
    if |bs| > 0 {
      KeptNoLonger(bs[1..]);
    }
  }

  lemma ImageStep(bs: seq<byte>, s: string)
    requires |bs| > 0 && |s| > 0
    ensures Image(bs) == s <==> Letter(bs[0]) == s[0] && Image(bs[1..]) == s[1..]
  {
    hide Letter, Image;
    assert s == [s[0]] + s[1..];
    assert Image(bs) == [Letter(bs[0])] + Image(bs[1..]);
  }

  lemma {:induction false} PreimagesAreExact(s: string, bs: seq<byte>)
    ensures bs in Preimages(s) <==> Kept(bs) == bs && Image(bs) == s
    decreases |s|
  {
    hide Letter, LetterBytes, Image, Prepend;
    if s != "" {
      InPrepend(LetterBytes(s[0]), Preimages(s[1..]), bs);
      if |bs| > 0 {
        PreimagesAreExact(s[1..], bs[1..]);
        InLetterBytes(s[0], bs[0]);
        KeptStep(bs);
        ImageStep(bs, s);
      }
    }
  }

  lemma {:induction false} PrependOne(b: byte, tails: set<seq<byte>>)
    ensures |Prepend({b}, tails)| == |tails|
    decreases |tails|
  {
    hide Prepend;
    if tails == {} {
      assert Prepend({b}, tails) == {} by {
        forall bs ensures bs !in Prepend({b}, tails) {
          InPrepend({b}, tails, bs);
        }
      }
    } else {
      var t :| t in tails;
      PrependOne(b, tails - {t});
      assert Prepend({b}, tails) == Prepend({b}, tails - {t}) + {[b] + t} by {
        forall bs
          ensures bs in Prepend({b}, tails) <==> bs in Prepend({b}, tails - {t}) || bs == [b] + t
        {
          InPrepend({b}, tails, bs);
          InPrepend({b}, tails - {t}, bs);
          assert |bs| > 0 ==> bs == [bs[0]] + bs[1..];
        }
      }
      InPrepend({b}, tails - {t}, [b] + t);
    }
  }

  lemma {:induction false} PrependCount(heads: set<byte>, tails: set<seq<byte>>)
    ensures |Prepend(heads, tails)| == |heads| * |tails|
    decreases |heads|
  {
    hide Prepend;
    if heads == {} {
      assert Prepend(heads, tails) == {} by {
        forall bs ensures bs !in Prepend(heads, tails) {
          InPrepend(heads, tails, bs);
        }
      }
    } else {
      var b :| b in heads;
      var others := heads - {b};
      PrependCount(others, tails);
      PrependOne(b, tails);
      forall bs
        ensures bs in Prepend(heads, tails) <==> bs in Prepend(others, tails) || bs in Prepend({b}, tails)
        ensures !(bs in Prepend(others, tails) && bs in Prepend({b}, tails))
      {
        InPrepend(heads, tails, bs);
        InPrepend(others, tails, bs);
        InPrepend({b}, tails, bs);
      }
      assert Prepend(heads, tails) == Prepend(others, tails) + Prepend({b}, tails);
      assert Prepend(others, tails) !! Prepend({b}, tails);
      assert |heads| * |tails| == |others| * |tails| + |tails|;
    }
  }

  function Pow(base: nat, n: nat): nat {
    if n == 0 then 1 else base * Pow(base, n - 1)
  }

  lemma UnbiasedStep(s: string)
    requires s != "" && InCharset(s)
    ensures Preimages(s) == Prepend(LetterBytes(s[0]), Preimages(s[1..]))
    ensures Pow(4, |s|) == 4 * Pow(4, |s[1..]|)
    ensures InCharset(s[1..]) && s[0] in CHARSET
  {
    hide Prepend, LetterBytes, CHARSET;
  }

  lemma {:induction false} UnbiasedCount(s: string)
    requires InCharset(s)
    ensures |Preimages(s)| == Pow(4, |s|)
    decreases |s|
  {
    if s != "" {
      hide *;
      UnbiasedStep(s);
      UnbiasedCount(s[1..]);
      PrependCount(LetterBytes(s[0]), Preimages(s[1..]));
      FourLetterBytes(s[0]);
    }
  }

  // Exactly 4^n of the equally likely runs of n accepted bytes give each
  // string of n letters.
  lemma Unbiased(s: string)
    requires InCharset(s)
    ensures |Preimages(s)| == Pow(4, |s|)
    ensures forall bs :: bs in Preimages(s) <==> Kept(bs) == bs && Image(bs) == s
  {
    hide *;
    UnbiasedCount(s);
    forall bs ensures bs in Preimages(s) <==> Kept(bs) == bs && Image(bs) == s {
      PreimagesAreExact(s, bs);
    }
  }

  lemma FourLetterBytes(c: char)
    requires c in CHARSET
    ensures |LetterBytes(c)| == 4
  {
    hide LetterBytes;
    var i :| 0 <= i < |CHARSET| && CHARSET[i] == c;
    FourBytesEach(i);
  }
}
