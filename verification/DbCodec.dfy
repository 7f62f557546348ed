/**
 The text format of the database files: decimal fields, index records, and the
 parser that reads an index record back.  A `char` stands for one byte.
 */
module DbCodec {
  import opened Common

  const IDXLEN_SZ := 4
  const PTR_SZ := 7
  const PTR_MAX := 9999999
  const NHASH := 137
  const IDXLEN_MIN := 6
  const IDXLEN_MAX := 1024
  const DATLEN_MIN := 2
  const DATLEN_MAX := 1024
  const SEP := ':'
  const NUL := '\0'

  // ---- printing: %d, %*d ----

  function Digit(d: nat): (c: char)
    requires d < 10
  {
    ('0' as int + d) as char
  }

  function Dec(n: nat): (s: string) {
    if n < 10 then [Digit(n)] else Dec(n / 10) + [Digit(n % 10)]
  }

  function Spaces(k: nat): (s: string)
    ensures |s| == k && forall i | 0 <= i < k :: s[i] == ' '
  {
    seq(k, _ => ' ')
  }

  // printf("%*d", width, n): right-justified, never truncated
  function Pad(width: nat, n: nat): (s: string) {
    var d := Dec(n);
    if |d| >= width then d else Spaces(width - |d|) + d
  }

  // ---- parsing: atol, strchr ----

  predicate IsDigit(c: char) { '0' <= c <= '9' }

  predicate IsSpace(c: char) { c == ' ' || '\t' <= c <= '\r' }

  function SkipSpace(s: string): string {
    if s != [] && IsSpace(s[0]) then SkipSpace(s[1..]) else s
  }

  function Digits(s: string, acc: nat): nat {
    if s == [] || !IsDigit(s[0]) then acc
    else Digits(s[1..], 10 * acc + (s[0] as int - '0' as int))
  }

  function Atol(s: string): int {
    var t := SkipSpace(s);
    if t != [] && t[0] == '-' then -(Digits(t[1..], 0) as int)
    else if t != [] && t[0] == '+' then Digits(t[1..], 0)
    else Digits(t, 0)
  }

  // strchr within a buffer: the index of the first c, or None when a NUL or the end comes first
  function StrChr(s: string, c: char): (r: Option<nat>)
    requires c != NUL
    ensures r.Some? ==> r.value < |s| && s[r.value] == c && c !in s[..r.value] && NUL !in s[..r.value]
    ensures r.None? && NUL !in s ==> c !in s
  {
    if s == [] || s[0] == NUL then None
    else if s[0] == c then Some(0)
    else match StrChr(s[1..], c)
         case None => None
         case Some(i) => assert s[..i + 1] == [s[0]] + s[1..][..i]; Some(i + 1)
  }

  // ---- decimal round trip ----

  predicate AllDigits(s: string) { forall i | 0 <= i < |s| :: IsDigit(s[i]) }

  lemma {:induction false} DecDigits(n: nat)
    ensures |Dec(n)| > 0 && AllDigits(Dec(n))
  {
    if n >= 10 { DecDigits(n / 10); }
  }

  lemma {:induction false} DigitsSnoc(s: string, c: char, acc: nat)
    requires AllDigits(s) && IsDigit(c)
    ensures Digits(s + [c], acc) == 10 * Digits(s, acc) + (c as int - '0' as int)
  {
    if s == [] {
      assert [c][1..] == [];
    } else {
      assert (s + [c])[1..] == s[1..] + [c];
      DigitsSnoc(s[1..], c, 10 * acc + (s[0] as int - '0' as int));
    }
  }

  lemma {:induction false} DigitsDec(n: nat)
    ensures Digits(Dec(n), 0) == n
  {
    if n < 10 {
      assert Dec(n)[1..] == [];
    } else {
      DigitsDec(n / 10);
      DecDigits(n / 10);
      DigitsSnoc(Dec(n / 10), Digit(n % 10), 0);
    }
  }

  lemma {:induction false} SkipSpaces(k: nat, t: string)
    requires t != [] && !IsSpace(t[0])
    ensures SkipSpace(Spaces(k) + t) == t
  {
    if k == 0 {
      assert Spaces(0) + t == t;
    } else {
      assert (Spaces(k) + t)[1..] == Spaces(k - 1) + t;
      SkipSpaces(k - 1, t);
    }
  }

  // a padded decimal field reads back as the number printed, whatever the width
  lemma AtolPad(width: nat, n: nat)
    ensures Atol(Pad(width, n)) == n
  {
    DecDigits(n);
    DigitsDec(n);
    var d := Dec(n);
    assert IsDigit(d[0]);
    if |d| < width { SkipSpaces(width - |d|, d); }
  }

  // a number that is not wider than its field stands at the right end of it, blanks before it
  lemma PadIs(width: nat, n: nat)
    requires |Dec(n)| <= width
    ensures |Pad(width, n)| == width && Pad(width, n)[width - |Dec(n)|..] == Dec(n)
    ensures forall i | 0 <= i < width - |Dec(n)| :: Pad(width, n)[i] == ' '
  {
  }

  // digits only, and no zero in front of a number that has more than one
  lemma {:induction false} DecIs(n: nat)
    ensures AllDigits(Dec(n)) && (n > 0 ==> Dec(n)[0] != '0')
    ensures Dec(n)[|Dec(n)| - 1] as int - '0' as int == n % 10
    ensures n >= 10 ==> Dec(n)[..|Dec(n)| - 1] == Dec(n / 10)
  {
    if n >= 10 {
      DecIs(n / 10);
      DecDigits(n / 10);
    }
  }

  lemma AtolDec(n: nat)
    ensures Atol(Dec(n)) == n
  {
    AtolPad(0, n);
    DecDigits(n);
  }

  // blanks in front are skipped, a sign is taken, and the first character that is no digit ends it
  lemma AtolOf()
    ensures Atol("    967") == 967 && Atol("12:") == 12 && Atol(" -7") == -7 && Atol("+7") == 7 && Atol(":") == 0
  {
    assert Spaces(4) + "967" == "    967" && Spaces(1) + "-7" == " -7";
    SkipSpaces(4, "967");
    SkipSpaces(1, "-7");
    assert Digits("967", 0) == Digits("67", 9) == Digits("7", 96) == Digits("", 967) by {
      assert "967"[1..] == "67" && "67"[1..] == "7" && "7"[1..] == "";
    }
    assert Digits("12:", 0) == Digits("2:", 1) == Digits(":", 12) by { assert "12:"[1..] == "2:" && "2:"[1..] == ":"; }
    assert "-7"[1..] == "7" && "+7"[1..] == "7" && "7"[1..] == "";
  }

  function Pow10(k: nat): nat { if k == 0 then 1 else 10 * Pow10(k - 1) }

  lemma {:induction false} DecLength(n: nat, k: nat)
    requires k > 0
    ensures |Dec(n)| <= k <==> n < Pow10(k)
  {
    if n >= 10 {
      if k == 1 {
        DecDigits(n / 10);
      } else {
        DecLength(n / 10, k - 1);
      }
    }
    else {
      Pow10Positive(k - 1);
    }
  }

  lemma {:induction false} Pow10Positive(k: nat)
    ensures Pow10(k) >= 1
  {
    if k > 0 { Pow10Positive(k - 1); }
  }

  // a pointer field keeps its 7 bytes exactly when the offset is at most PTR_MAX
  lemma PtrFieldFits(n: nat)
    ensures |Pad(PTR_SZ, n)| == PTR_SZ <==> n <= PTR_MAX
  {
    DecLength(n, 7);
    assert Pow10(7) == 10000000 by { assert Pow10(1) == 10; assert Pow10(3) == 1000; assert Pow10(5) == 100000; }
  }

  lemma LenFieldFits(n: nat)
    ensures |Pad(IDXLEN_SZ, n)| == IDXLEN_SZ <==> n <= 9999
  {
    DecLength(n, 4);
    assert Pow10(4) == 10000 by { assert Pow10(2) == 100; }
  }

  // ---- index records ----

  datatype Rec = Rec(ptr: nat, key: string, datoff: nat, datlen: nat)

  function Body(r: Rec): string {
    r.key + [SEP] + Dec(r.datoff) + [SEP] + Dec(r.datlen) + ['\n']
  }

  function Enc(r: Rec): string {
    Pad(PTR_SZ, r.ptr) + Pad(IDXLEN_SZ, |Body(r)|) + Body(r)
  }

  function RecLen(r: Rec): nat { PTR_SZ + IDXLEN_SZ + |Body(r)| }

  predicate KeyText(key: string) { SEP !in key && NUL !in key }

  predicate ValidRec(r: Rec) {
    && r.ptr <= PTR_MAX
    && KeyText(r.key)
    && IDXLEN_MIN <= |Body(r)| <= IDXLEN_MAX
    && 0 < r.datlen <= DATLEN_MAX
  }

  lemma EncLength(r: Rec)
    requires r.ptr <= PTR_MAX && |Body(r)| <= IDXLEN_MAX
    ensures |Enc(r)| == RecLen(r)
    ensures |Pad(PTR_SZ, r.ptr)| == PTR_SZ && |Pad(IDXLEN_SZ, |Body(r)|)| == IDXLEN_SZ
  {
    PtrFieldFits(r.ptr);
    LenFieldFits(|Body(r)|);
  }

  // why _db_readidx gives up (err_dump)
  datatype ReadError =
    | Eof | ShortRead | BadIdxLen | ShortBody | NoNewline | NoSep | OneSep | ManySeps | BadDatoff | BadDatlen

  datatype ReadResult =
    | Ok(ptr: int, key: string, datoff: nat, datlen: nat, idxlen: nat)
    | Err(error: ReadError)

  // the separator scan over the record body, newline included
  function ParseBody(ptr: int, body: string): ReadResult
    requires body != []
  {
    if body[|body| - 1] != '\n' then Err(NoNewline) else
    var text := body[..|body| - 1];
    match StrChr(text, SEP)
    case None => Err(NoSep)
    case Some(i) =>
      var rest := text[i + 1..];
      match StrChr(rest, SEP)
      case None => Err(OneSep)
      case Some(j) =>
        var tail := rest[j + 1..];
        if StrChr(tail, SEP).Some? then Err(ManySeps) else
        var datoff := Atol(rest[..j]);
        var datlen := Atol(tail);
        if datoff < 0 then Err(BadDatoff)
        else if datlen <= 0 || datlen > DATLEN_MAX then Err(BadDatlen)
        else Ok(ptr, text[..i], datoff, datlen, |body|)
  }

  // what _db_readidx does with the bytes at offset off
  function ReadRec(f: string, off: nat): (r: ReadResult)
    ensures r.Ok? ==> IDXLEN_MIN <= r.idxlen <= IDXLEN_MAX && off + PTR_SZ + IDXLEN_SZ + r.idxlen <= |f|
  {
    if off >= |f| then Err(Eof) else
    if off + PTR_SZ + IDXLEN_SZ > |f| then Err(ShortRead) else
    var ptr := Atol(f[off..off + PTR_SZ]);
    var idxlen := Atol(f[off + PTR_SZ..off + PTR_SZ + IDXLEN_SZ]);
    var start := off + PTR_SZ + IDXLEN_SZ;
    if idxlen < IDXLEN_MIN || idxlen > IDXLEN_MAX then Err(BadIdxLen)
    else if start + idxlen > |f| then Err(ShortBody)
    else ParseBody(ptr, f[start..start + idxlen])
  }

  lemma AtEof(f: string)
    ensures ReadRec(f, |f|) == Err(Eof)
  {
  }

  lemma {:induction false} StrChrFirst(a: string, c: char, b: string)
    requires c != NUL && c !in a && NUL !in a
    ensures StrChr(a + [c] + b, c) == Some(|a|)
  {
    if a == [] {
      assert a + [c] + b == [c] + b;
    } else {
      assert (a + [c] + b)[1..] == a[1..] + [c] + b;
      StrChrFirst(a[1..], c, b);
    }
  }

  lemma DecText(n: nat)
    ensures SEP !in Dec(n) && NUL !in Dec(n)
  {
    DecDigits(n);
  }

  // the separator scan undoes the printing of a record body
  lemma ParseBodyInverts(r: Rec)
    requires ValidRec(r)
    ensures ParseBody(r.ptr, Body(r)) == Ok(r.ptr, r.key, r.datoff, r.datlen, |Body(r)|)
  {
    var a, b := Dec(r.datoff), Dec(r.datlen);
    DecText(r.datoff);
    DecText(r.datlen);
    var body := Body(r);
    var text := body[..|body| - 1];
    assert text == r.key + [SEP] + (a + [SEP] + b);
    StrChrFirst(r.key, SEP, a + [SEP] + b);
    var rest := text[|r.key| + 1..];
    assert rest == a + [SEP] + b;
    StrChrFirst(a, SEP, b);
    assert rest[|a| + 1..] == b;
    assert rest[..|a|] == a;
    assert text[..|r.key|] == r.key;
    assert StrChr(b, SEP).None?;
    AtolDec(r.datoff);
    AtolDec(r.datlen);
  }

  lemma SubSlice(f: string, a: nat, b: nat, i: nat, j: nat)
    requires a <= b <= |f| && i <= j <= b - a
    ensures f[a..b][i..j] == f[a + i..a + j]
  {
    forall k | 0 <= k < j - i ensures f[a..b][i..j][k] == f[a + i..a + j][k] {
      assert f[a..b][i + k] == f[a + i + k];
    }
  }

  lemma EncFields(r: Rec)
    requires r.ptr <= PTR_MAX && |Body(r)| <= IDXLEN_MAX
    ensures |Enc(r)| == RecLen(r)
    ensures Enc(r)[0..PTR_SZ] == Pad(PTR_SZ, r.ptr)
    ensures Enc(r)[PTR_SZ..PTR_SZ + IDXLEN_SZ] == Pad(IDXLEN_SZ, |Body(r)|)
    ensures Enc(r)[PTR_SZ + IDXLEN_SZ..RecLen(r)] == Body(r)
  {
    EncLength(r);
    var p, l, b := Pad(PTR_SZ, r.ptr), Pad(IDXLEN_SZ, |Body(r)|), Body(r);
    assert (p + l + b)[0..|p|] == p;
    assert (p + l + b)[|p|..|p| + |l|] == l;
    assert (p + l + b)[|p| + |l|..|p| + |l| + |b|] == b;
  }

  // reading an index record at its offset yields exactly the record written there
  lemma ReadWritten(f: string, off: nat, r: Rec)
    requires ValidRec(r)
    requires off + RecLen(r) <= |f| && f[off..off + RecLen(r)] == Enc(r)
    ensures ReadRec(f, off) == Ok(r.ptr, r.key, r.datoff, r.datlen, |Body(r)|)
  {
    hide Dec, Pad, ParseBody, Atol, Body, Enc;
    EncFields(r);
    var body := Body(r);
    var start := off + PTR_SZ + IDXLEN_SZ;
    SubSlice(f, off, off + RecLen(r), 0, PTR_SZ);
    SubSlice(f, off, off + RecLen(r), PTR_SZ, PTR_SZ + IDXLEN_SZ);
    SubSlice(f, off, off + RecLen(r), PTR_SZ + IDXLEN_SZ, RecLen(r));
    assert f[off..off + PTR_SZ] == Pad(PTR_SZ, r.ptr);
    assert f[off + PTR_SZ..start] == Pad(IDXLEN_SZ, |body|);
    assert f[start..start + |body|] == body;
    AtolPad(PTR_SZ, r.ptr);
    AtolPad(IDXLEN_SZ, |body|);
    ParseBodyInverts(r);
  }

  // a key that is read has no separator and no NUL in it
  lemma KeyReadIsText(f: string, off: nat)
    requires ReadRec(f, off).Ok?
    ensures KeyText(ReadRec(f, off).key)
  {
    hide Dec, Atol;
  }

  // so a record whose numbers are within limits reads back exactly if its key is such a text
  lemma ReadsBackIff(f: string, off: nat, r: Rec)
    requires r.ptr <= PTR_MAX && IDXLEN_MIN <= |Body(r)| <= IDXLEN_MAX && 0 < r.datlen <= DATLEN_MAX
    requires off + RecLen(r) <= |f| && f[off..off + RecLen(r)] == Enc(r)
    ensures ReadRec(f, off) == Ok(r.ptr, r.key, r.datoff, r.datlen, |Body(r)|) <==> KeyText(r.key)
  {
    hide Dec, Pad, ParseBody, Atol, Body, Enc, ReadRec;
    if KeyText(r.key) { ReadWritten(f, off, r); }
    if ReadRec(f, off) == Ok(r.ptr, r.key, r.datoff, r.datlen, |Body(r)|) { KeyReadIsText(f, off); }
  }

  // the bytes of two records and of an empty pointer field
  lemma RecordText()
    ensures Pad(PTR_SZ, 0) == "      0" && Pad(PTR_SZ, 967) == "    967" && Pad(IDXLEN_SZ, 6) == "   6"
    ensures Enc(Rec(0, "k", 0, 2)) == "      0   6k:0:2\n"
    ensures Enc(Rec(967, "key", 1234, 56)) == "    967  12key:1234:56\n"
  {
    SmallFields();
    SmallBodies();
    hide Pad, Body;
  }

  lemma SmallFields()
    ensures Pad(7, 0) == "      0" && Pad(7, 967) == "    967" && Pad(4, 6) == "   6" && Pad(4, 12) == "  12"
  {
    SmallNumbers();
    hide Dec;
    assert Spaces(6) == "      " && Spaces(4) == "    " && Spaces(3) == "   " && Spaces(2) == "  ";
    hide Spaces;
  }

  lemma SmallBodies()
    ensures Body(Rec(0, "k", 0, 2)) == "k:0:2\n" && Body(Rec(967, "key", 1234, 56)) == "key:1234:56\n"
  {
    SmallNumbers();
    hide Dec;
  }

  lemma SmallNumbers()
    ensures Dec(0) == "0" && Dec(2) == "2" && Dec(6) == "6" && Dec(12) == "12"
    ensures Dec(56) == "56" && Dec(967) == "967" && Dec(1234) == "1234"
  {
    assert Dec(1) == "1" && Dec(5) == "5" && Dec(9) == "9";
    assert Dec(12) == Dec(1) + "2" && Dec(56) == Dec(5) + "6";
    assert Dec(96) == Dec(9) + "6" && Dec(967) == Dec(96) + "7";
    assert Dec(123) == Dec(12) + "3" && Dec(1234) == Dec(123) + "4";
  }

  // a stored key with a separator in it does not read back
  lemma SeparatorInKey()
    ensures var r := Rec(0, "a:b", 0, 2); ReadRec(Enc(r), 0) != Ok(r.ptr, r.key, r.datoff, r.datlen, |Body(r)|)
  {
    var r := Rec(0, "a:b", 0, 2);
    assert r.key[1] == SEP;
    DecLength(r.datoff, 1);
    DecLength(r.datlen, 1);
    DecDigits(r.datoff);
    DecDigits(r.datlen);
    assert Pow10(1) == 10 * Pow10(0) == 10;
    EncLength(r);
    ReadsBackIff(Enc(r), 0, r);
  }

  // the first offset that does not fit a pointer field
  lemma OffsetTooLarge()
    ensures |Pad(PTR_SZ, 10000000)| != PTR_SZ && |Pad(PTR_SZ, 9999999)| == PTR_SZ
  {
    PtrFieldFits(10000000);
    PtrFieldFits(9999999);
  }

  // ---- hash ----

  // C's char is taken as signed, as on the usual platforms
  function SignedChar(c: char): int {
    var v := c as int % 256;
    if v >= 128 then v - 256 else v
  }

  function HashFrom(key: string, i: nat, hval: nat): nat
    decreases |key| - i
  {
    if i >= |key| then hval
    else HashFrom(key, i + 1, (hval + SignedChar(key[i]) * (i + 1)) % 0x1_0000_0000_0000_0000)
  }

  function Hash(key: string): (h: nat)
    ensures h < NHASH
  {
    HashFrom(key, 0, 0) % NHASH
  }

  // one more character adds its value times its position, counted from 1
  lemma HashOneMore(key: string, c: char)
    ensures HashFrom(key + [c], 0, 0)
            == (HashFrom(key, 0, 0) + SignedChar(c) * (|key| + 1)) % 0x1_0000_0000_0000_0000
  {
    hide HashFrom, SignedChar;
    HashOneMoreFrom(key, c, 0, 0);
  }

  lemma {:induction false} HashOneMoreFrom(key: string, c: char, i: nat, hval: nat)
    requires i <= |key|
    ensures HashFrom(key + [c], i, hval)
            == (HashFrom(key, i, hval) + SignedChar(c) * (|key| + 1)) % 0x1_0000_0000_0000_0000
    decreases |key| - i
  {
    if i < |key| {
      HashOneMoreFrom(key, c, i + 1, (hval + SignedChar(key[i]) * (i + 1)) % 0x1_0000_0000_0000_0000);
    }
  }

  // the chains of some keys; a byte above 127 counts as negative, and the sum as unsigned
  lemma HashOf()
    ensures Hash("") == 0 && Hash("ab") == 19 && Hash("ba") == 18 && Hash([233 as char]) == 37
  {
    hide HashFrom, SignedChar;
    HashOfTwo("ab", 97, 98);
    HashOfTwo("ba", 98, 97);
    HashOfNone();
    HashOfOne(233 as char);
  }

  lemma HashOfNone()
    ensures HashFrom("", 0, 0) == 0
  {
  }

  lemma HashOfOne(c: char)
    ensures HashFrom([c], 0, 0) == (if c as int % 256 < 128 then 0 else 0x1_0000_0000_0000_0000 - 256) + c as int % 256
  {
    HashOneMore("", c);
    HashOfNone();
    hide HashFrom;
    assert "" + [c] == [c];
  }

  lemma HashOfTwo(key: string, a: nat, b: nat)
    requires |key| == 2 && key[0] as int == a < 128 && key[1] as int == b < 128
    ensures HashFrom(key, 0, 0) == a + 2 * b
  {
    assert HashFrom(key, 2, a + 2 * b) == a + 2 * b;
    assert SignedChar(key[0]) == a && SignedChar(key[1]) == b;
    hide SignedChar;
    assert HashFrom(key, 1, a) == HashFrom(key, 2, a + 2 * b);
  }
}
