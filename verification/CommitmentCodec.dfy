/**
 The commitment payloads (sn89_signals/chain.py:41-279): seven kinds of colon-separated records, told apart by
 their prefix. Each payload pattern is a list of fields none of which may contain a colon, so matching a pattern
 is splitting at the colons and checking the fields.
 */
module CommitmentCodec {
  import opened Wrappers

  /** What each kind of payload carries. */
  datatype Commitment =
    | Signal(commit: string, round: nat, urlTag: string)
    | EntityBatch(root: string, round: nat, urlTag: string)
    | AccountOpen(n: nat)
    | AccountReferral(n: nat, recruit: string)
    | Referral(recruit: string)
    | ReferralTransfer(to: string)
    | Succession(from: string, to: string)

  // ---------------------------------------------------------------- decimal numbers

  function DigitChar(d: nat): char
    requires d < 10
  {
    "0123456789"[d]
  }

  predicate IsDigit(c: char)
  {
    '0' <= c <= '9'
  }

  function DigitValue(c: char): nat
    requires IsDigit(c)
  {
    (c - '0') as nat
  }

  predicate AllDigits(s: string)
  {
    s != [] && forall i :: 0 <= i < |s| ==> IsDigit(s[i])
  }

  function Show(n: nat): (s: string)
    ensures AllDigits(s)
  {
    if n < 10 then [DigitChar(n)] else Show(n / 10) + [DigitChar(n % 10)]
  }

  function Value(s: string): nat
    requires forall i :: 0 <= i < |s| ==> IsDigit(s[i])
  {
    if s == [] then 0 else Value(s[..|s| - 1]) * 10 + DigitValue(s[|s| - 1])
  }

  lemma DigitRoundTrip(d: nat)
    requires d < 10
    ensures IsDigit(DigitChar(d)) && DigitValue(DigitChar(d)) == d
  {
  }

  lemma {:induction false} ShowRoundTrip(n: nat)
    ensures Value(Show(n)) == n
    decreases n
  {
    DigitRoundTrip(n % 10);
    if n >= 10 {
      ShowRoundTrip(n / 10);
      assert Show(n)[..|Show(n)| - 1] == Show(n / 10);
    } else {
      assert Show(n)[..0] == [];
    }
  }

  /** A number below a power of ten has at most that many digits. */
  lemma {:induction false} ShowLength(n: nat, k: nat)
    requires k > 0 && n < Power(k)
    ensures |Show(n)| <= k
    decreases k
  {
    if n >= 10 {
      assert Power(k) == 10 * Power(k - 1);
      ShowLength(n / 10, k - 1);
    }
  }

  function Power(k: nat): nat
  {
    if k == 0 then 1 else 10 * Power(k - 1)
  }

  // ---------------------------------------------------------------- fields and colons

  predicate NoColon(s: string)
  {
    forall i :: 0 <= i < |s| ==> s[i] != ':'
  }

  function Join(fields: seq<string>): string
    requires fields != []
  {
    if |fields| == 1 then fields[0] else Join(fields[..|fields| - 1]) + ":" + fields[|fields| - 1]
  }

  /** Splits at every colon. */
  function Split(s: string): (fields: seq<string>)
    ensures fields != []
  {
    if s == [] then [[]]
    else
      var before := Split(s[..|s| - 1]);
      var c := s[|s| - 1];
      if c == ':' then before + [[]] else before[..|before| - 1] + [before[|before| - 1] + [c]]
  }

  /** Characters after the last colon extend the last field. */
  lemma {:induction false} SplitExtends(s: string, t: string)
    requires NoColon(t)
    ensures Split(s + t) == Split(s)[..|Split(s)| - 1] + [Split(s)[|Split(s)| - 1] + t]
    decreases |t|
  {
    if t == [] {
      assert s + t == s;
      assert Split(s)[|Split(s)| - 1] + [] == Split(s)[|Split(s)| - 1];
    } else {
      var front, c := t[..|t| - 1], t[|t| - 1];
      SplitExtends(s, front);
      assert (s + t)[..|s + t| - 1] == s + front;
      assert Split(s)[|Split(s)| - 1] + front + [c] == Split(s)[|Split(s)| - 1] + t;
    }
  }

  lemma SplitAfterColon(s: string, t: string)
    requires NoColon(t)
    ensures Split(s + ":" + t) == Split(s) + [t]
  {
    assert (s + ":")[..|s|] == s;
    assert Split(s + ":") == Split(s) + [[]];
    SplitExtends(s + ":", t);
    assert [] + t == t;
  }

  lemma SplitOfOne(t: string)
    requires NoColon(t)
    ensures Split(Join([t])) == [t]
  {
    SplitExtends([], t);
    assert [] + t == t;
  }

  /** Joined fields split back into themselves. */
  lemma {:induction false} SplitOfJoin(fields: seq<string>)
    requires fields != [] && forall i :: 0 <= i < |fields| ==> NoColon(fields[i])
    ensures Split(Join(fields)) == fields
    decreases |fields|
  {
    var last := fields[|fields| - 1];
    if |fields| == 1 {
      SplitOfOne(last);
    } else {
      hide Split, NoColon;
      var front := fields[..|fields| - 1];
      SplitOfJoin(front);
      SplitAfterColon(Join(front), last);
      assert front + [last] == fields;
    }
  }

  // ---------------------------------------------------------------- surrounding space

  predicate IsSpace(c: char)
  {
    c == ' ' || c == '\t' || c == '\n' || c == '\r'
  }

  function StripLeft(s: string): string
  {
    if s != [] && IsSpace(s[0]) then StripLeft(s[1..]) else s
  }

  function StripRight(s: string): string
  {
    if s != [] && IsSpace(s[|s| - 1]) then StripRight(s[..|s| - 1]) else s
  }

  function Strip(s: string): string
  {
    StripRight(StripLeft(s))
  }

  // ---------------------------------------------------------------- field patterns

  predicate IsHex(c: char)
  {
    '0' <= c <= '9' || 'a' <= c <= 'f'
  }

  predicate HexOf(s: string, n: nat)
  {
    |s| == n && forall i :: 0 <= i < |s| ==> IsHex(s[i])
  }

  predicate IsBase58(c: char)
  {
    '1' <= c <= '9' || ('A' <= c <= 'Z' && c != 'I' && c != 'O') || ('a' <= c <= 'z' && c != 'l')
  }

  /** The shape of an address: a 5 and 46 to 50 characters of the base-58 alphabet. */
  predicate AddressShape(s: string)
  {
    47 <= |s| <= 51 && s[0] == '5' && forall i :: 0 <= i < |s| ==> IsBase58(s[i])
  }

  /** An address, or an entity's account: an address, an underscore and up to nine digits. */
  predicate AccountShape(s: string)
  {
    AddressShape(s) || exists k :: 0 <= k < |s| && s[k] == '_' && AddressShape(s[..k]) && AllDigits(s[k + 1..]) && |s| - k - 1 <= 9
  }

  /** The part before the first underscore. */
  function HotkeyOf(s: string): string
  {
    if s == [] || s[0] == '_' then [] else [s[0]] + HotkeyOf(s[1..])
  }

  lemma ShapesHaveNoColon(s: string)
    ensures AllDigits(s) ==> NoColon(s)
    ensures forall n :: HexOf(s, n) ==> NoColon(s)
    ensures AddressShape(s) ==> NoColon(s)
    ensures AccountShape(s) ==> NoColon(s)
  {
    if AccountShape(s) && !AddressShape(s) {
      var k :| 0 <= k < |s| && s[k] == '_' && AddressShape(s[..k]) && AllDigits(s[k + 1..]) && |s| - k - 1 <= 9;
      forall i | 0 <= i < |s| ensures s[i] != ':' {
        if i < k {
          assert s[i] == s[..k][i];
        } else if i > k {
          assert s[i] == s[k + 1..][i - k - 1];
        }
      }
    }
  }

  // ---------------------------------------------------------------- the codecs

  const TWO63 := 0x8000_0000_0000_0000

  predicate RoundOk(s: string)
  {
    AllDigits(s) && 0 < Value(s) < TWO63
  }

  /** The second field: version 1, leading zeros included. */
  predicate VersionOk(s: string)
  {
    AllDigits(s) && Value(s) == 1
  }

  predicate NumberOk(s: string)
  {
    AllDigits(s) && |s| <= 9
  }

  /** The prefix of a payload names its kind. */
  function Prefix(c: Commitment): string
  {
    match c
    case Signal(_, _, _) => "sn89"
    case EntityBatch(_, _, _) => "sn89b"
    case AccountOpen(_) => "sn89acct"
    case AccountReferral(_, _) => "sn89refa"
    case Referral(_) => "sn89ref"
    case ReferralTransfer(_) => "sn89refx"
    case Succession(_, _) => "sn89refs"
  }

  function FieldsOf(c: Commitment): seq<string>
  {
    match c
    case Signal(commit, round, tag) => [commit, Show(round), tag]
    case EntityBatch(root, round, tag) => [root, Show(round), tag]
    case AccountOpen(n) => [Show(n)]
    case AccountReferral(n, recruit) => [Show(n), recruit]
    case Referral(recruit) => [recruit]
    case ReferralTransfer(to) => [to]
    case Succession(from, to) => [from, to]
  }

  function Encode(c: Commitment): string
  {
    Join([Prefix(c), "1"] + FieldsOf(c))
  }

  /** The text of each kind of payload. */
  lemma EncodingIs(c: Commitment)
    ensures match c
            case Signal(commit, round, tag) => Encode(c) == "sn89:1:" + commit + ":" + Show(round) + ":" + tag
            case EntityBatch(root, round, tag) => Encode(c) == "sn89b:1:" + root + ":" + Show(round) + ":" + tag
            case AccountOpen(n) => Encode(c) == "sn89acct:1:" + Show(n)
            case AccountReferral(n, recruit) => Encode(c) == "sn89refa:1:" + Show(n) + ":" + recruit
            case Referral(recruit) => Encode(c) == "sn89ref:1:" + recruit
            case ReferralTransfer(to) => Encode(c) == "sn89refx:1:" + to
            case Succession(from, to) => Encode(c) == "sn89refs:1:" + from + ":" + to
  {
    hide Show;
    var f := FieldsOf(c);
    if |f| == 1 {
      JoinThree(Prefix(c), "1", f[0]);
      assert f == [f[0]];
    } else if |f| == 2 {
      JoinFour(Prefix(c), "1", f[0], f[1]);
      assert f == [f[0], f[1]];
    } else {
      JoinFive(Prefix(c), "1", f[0], f[1], f[2]);
      assert f == [f[0], f[1], f[2]];
    }
  }

  lemma JoinThree(a: string, b: string, c: string)
    ensures Join([a, b] + [c]) == a + ":" + b + ":" + c
  {
    assert ([a, b] + [c])[..2] == [a, b] && [a, b][..1] == [a];
    assert Join([a]) == a;
    assert Join([a, b]) == a + ":" + b;
  }

  lemma JoinFour(a: string, b: string, c: string, d: string)
    ensures Join([a, b] + [c, d]) == a + ":" + b + ":" + c + ":" + d
  {
    JoinThree(a, b, c);
    assert ([a, b] + [c, d])[..3] == [a, b] + [c];
  }

  lemma JoinFive(a: string, b: string, c: string, d: string, e: string)
    ensures Join([a, b] + [c, d, e]) == a + ":" + b + ":" + c + ":" + d + ":" + e
  {
    JoinFour(a, b, c, d);
    assert ([a, b] + [c, d, e])[..4] == [a, b] + [c, d];
  }

  /** The address checksum is not modelled: `valid` stands for it. */
  type Checksum = string -> bool

  /** The fields after a prefix and a version of 1, or nothing. */
  function FieldsAfter(data: string, prefix: string, count: nat): Option<seq<string>>
  {
    var fields := Split(Strip(data));
    if |fields| == count + 2 && fields[0] == prefix && VersionOk(fields[1]) then Some(fields[2..]) else None
  }

  function DecodeSignal(data: string): Option<Commitment>
  {
    var f := FieldsAfter(data, "sn89", 3);
    if f.Some? && |f.value| == 3 && HexOf(f.value[0], 64) && RoundOk(f.value[1]) && HexOf(f.value[2], 16)
    then Some(Signal(f.value[0], Value(f.value[1]), f.value[2])) else None
  }

  function DecodeBatch(data: string): Option<Commitment>
  {
    var f := FieldsAfter(data, "sn89b", 3);
    if f.Some? && |f.value| == 3 && HexOf(f.value[0], 64) && RoundOk(f.value[1]) && HexOf(f.value[2], 16)
    then Some(EntityBatch(f.value[0], Value(f.value[1]), f.value[2])) else None
  }

  function DecodeAccountOpen(data: string): Option<Commitment>
  {
    var f := FieldsAfter(data, "sn89acct", 1);
    if f.Some? && |f.value| == 1 && NumberOk(f.value[0]) then Some(AccountOpen(Value(f.value[0]))) else None
  }

  ghost function DecodeAccountReferral(data: string, valid: Checksum): Option<Commitment>
  {
    var f := FieldsAfter(data, "sn89refa", 2);
    if f.Some? && |f.value| == 2 && NumberOk(f.value[0]) && AccountShape(f.value[1]) && valid(HotkeyOf(f.value[1]))
    then Some(AccountReferral(Value(f.value[0]), f.value[1])) else None
  }

  ghost function DecodeReferral(data: string, valid: Checksum): Option<Commitment>
  {
    var f := FieldsAfter(data, "sn89ref", 1);
    if f.Some? && |f.value| == 1 && AccountShape(f.value[0]) && valid(HotkeyOf(f.value[0])) then Some(Referral(f.value[0])) else None
  }

  ghost function DecodeTransfer(data: string, valid: Checksum): Option<Commitment>
  {
    var f := FieldsAfter(data, "sn89refx", 1);
    if f.Some? && |f.value| == 1 && AddressShape(f.value[0]) && valid(f.value[0]) then Some(ReferralTransfer(f.value[0])) else None
  }

  ghost function DecodeSuccession(data: string, valid: Checksum): Option<Commitment>
  {
    var f := FieldsAfter(data, "sn89refs", 2);
    if f.Some? && |f.value| == 2 && AddressShape(f.value[0]) && AccountShape(f.value[1]) && f.value[0] != f.value[1]
       && valid(f.value[0]) && valid(HotkeyOf(f.value[1]))
    then Some(Succession(f.value[0], f.value[1])) else None
  }

  /** The decoders, tried in the order of the source. */
  ghost function Decoders(data: string, valid: Checksum): seq<Option<Commitment>>
  {
    [DecodeSignal(data), DecodeBatch(data), DecodeAccountOpen(data), DecodeAccountReferral(data, valid),
     DecodeReferral(data, valid), DecodeTransfer(data, valid), DecodeSuccession(data, valid)]
  }

  ghost function FirstSome(tries: seq<Option<Commitment>>): Option<Commitment>
  {
    if tries == [] then None else if tries[0].Some? then tries[0] else FirstSome(tries[1..])
  }

  ghost function DecodeAny(data: string, valid: Checksum): Option<Commitment>
  {
    if data == [] then None else FirstSome(Decoders(data, valid))
  }

  // ---------------------------------------------------------------- the kinds are disjoint

  /** A payload has one prefix. */
  lemma OnePrefix(data: string, p: string, m: nat, q: string, n: nat)
    requires FieldsAfter(data, p, m).Some? && FieldsAfter(data, q, n).Some?
    ensures p == q
  {
  }

  function KindPrefix(i: nat): string
    requires i < 7
  {
    ["sn89", "sn89b", "sn89acct", "sn89refa", "sn89ref", "sn89refx", "sn89refs"][i]
  }

  lemma DecoderNeedsPrefix(data: string, valid: Checksum, i: nat)
    requires i < 7 && Decoders(data, valid)[i].Some?
    ensures exists n :: FieldsAfter(data, KindPrefix(i), n).Some?
  {
    hide FieldsAfter, Value, HexOf, RoundOk, NumberOk, AccountShape, AddressShape, HotkeyOf;
    assert FieldsAfter(data, KindPrefix(i), 1).Some? || FieldsAfter(data, KindPrefix(i), 2).Some? || FieldsAfter(data, KindPrefix(i), 3).Some?;
  }

  lemma PrefixesDiffer(i: nat, j: nat)
    requires i < j < 7
    ensures KindPrefix(i) != KindPrefix(j)
  {
    var a, b := KindPrefix(i), KindPrefix(j);
    assert |a| != |b| || a[|a| - 1] != b[|b| - 1];
  }

  /** No payload is of two kinds, so the order of the trials does not matter. */
  lemma KindsAreDisjoint(data: string, valid: Checksum, i: nat, j: nat)
    requires i < j < 7
    ensures Decoders(data, valid)[i].None? || Decoders(data, valid)[j].None?
  {
    hide DecodeSignal, DecodeBatch, DecodeAccountOpen, DecodeAccountReferral, DecodeReferral, DecodeTransfer,
         DecodeSuccession, FieldsAfter, KindPrefix;
    if Decoders(data, valid)[i].Some? && Decoders(data, valid)[j].Some? {
      DecoderNeedsPrefix(data, valid, i);
      DecoderNeedsPrefix(data, valid, j);
      var m :| FieldsAfter(data, KindPrefix(i), m).Some?;
      var n :| FieldsAfter(data, KindPrefix(j), n).Some?;
      OnePrefix(data, KindPrefix(i), m, KindPrefix(j), n);
      PrefixesDiffer(i, j);
      assert false;
    }
  }

  /** Whichever decoder accepts a payload is the one whose answer is returned. */
  lemma AnyDecoderWins(data: string, valid: Checksum, i: nat)
    requires i < 7 && data != [] && Decoders(data, valid)[i].Some?
    ensures DecodeAny(data, valid) == Decoders(data, valid)[i]
  {
    hide Decoders;
    var tries := Decoders(data, valid);
    DecoderCount(data, valid);
    forall j | 0 <= j < i ensures tries[j].None? {
      KindsAreDisjoint(data, valid, j, i);
    }
    FirstSomeAt(tries, i);
  }

  lemma DecoderCount(data: string, valid: Checksum)
    ensures |Decoders(data, valid)| == 7
  {
  }

  lemma {:induction false} FirstSomeAt(tries: seq<Option<Commitment>>, i: nat)
    requires i < |tries| && tries[i].Some? && forall j :: 0 <= j < i ==> tries[j].None?
    ensures FirstSome(tries) == tries[i]
    decreases i
  {
    if i > 0 {
      forall j | 0 <= j < i - 1 ensures tries[1..][j].None? {
        assert tries[1..][j] == tries[j + 1];
      }
      FirstSomeAt(tries[1..], i - 1);
    }
  }

  // ---------------------------------------------------------------- round trips

  /** What each encoder's caller must provide for the payload to be readable. */
  ghost predicate WellFormed(c: Commitment, valid: Checksum)
  {
    match c
    case Signal(commit, round, tag) => HexOf(commit, 64) && 0 < round < TWO63 && HexOf(tag, 16)
    case EntityBatch(root, round, tag) => HexOf(root, 64) && 0 < round < TWO63 && HexOf(tag, 16)
    case AccountOpen(n) => n < 1_000_000_000
    case AccountReferral(n, recruit) => n < 1_000_000_000 && AccountShape(recruit) && valid(HotkeyOf(recruit))
    case Referral(recruit) => AccountShape(recruit) && valid(HotkeyOf(recruit))
    case ReferralTransfer(to) => AddressShape(to) && valid(to)
    case Succession(from, to) => AddressShape(from) && AccountShape(to) && from != to && valid(from) && valid(HotkeyOf(to))
  }

  function KindIndex(c: Commitment): nat
  {
    match c
    case Signal(_, _, _) => 0
    case EntityBatch(_, _, _) => 1
    case AccountOpen(_) => 2
    case AccountReferral(_, _) => 3
    case Referral(_) => 4
    case ReferralTransfer(_) => 5
    case Succession(_, _) => 6
  }

  lemma {:induction false} JoinEnds(fields: seq<string>)
    requires fields != [] && forall i :: 0 <= i < |fields| ==> fields[i] != []
    ensures Join(fields) != [] && Join(fields)[0] == fields[0][0]
    ensures Join(fields)[|Join(fields)| - 1] == fields[|fields| - 1][|fields[|fields| - 1]| - 1]
    decreases |fields|
  {
    if |fields| > 1 {
      JoinEnds(fields[..|fields| - 1]);
    }
  }

  lemma StripOfTrimmed(s: string)
    requires s != [] && !IsSpace(s[0]) && !IsSpace(s[|s| - 1])
    ensures Strip(s) == s
  {
  }

  /** A field has no colon, is not empty and does not end in a space. */
  predicate FieldOk(s: string)
  {
    NoColon(s) && s != [] && !IsSpace(s[|s| - 1])
  }

  lemma ShapesAreFields(s: string)
    ensures AllDigits(s) ==> FieldOk(s)
    ensures forall n :: n > 0 && HexOf(s, n) ==> FieldOk(s)
    ensures AddressShape(s) ==> FieldOk(s)
    ensures AccountShape(s) ==> FieldOk(s)
  {
    ShapesHaveNoColon(s);
    if AccountShape(s) && !AddressShape(s) {
      var k :| 0 <= k < |s| && s[k] == '_' && AddressShape(s[..k]) && AllDigits(s[k + 1..]) && |s| - k - 1 <= 9;
      assert s[k + 1..][|s| - k - 2] == s[|s| - 1];
    }
  }

  lemma FieldsAreFields(c: Commitment, valid: Checksum)
    requires WellFormed(c, valid)
    ensures forall i :: 0 <= i < |FieldsOf(c)| ==> FieldOk(FieldsOf(c)[i])
  {
    hide FieldOk, HexOf, AddressShape, AccountShape, Show, HotkeyOf;
    forall i | 0 <= i < |FieldsOf(c)| ensures FieldOk(FieldsOf(c)[i]) {
      ShapesAreFields(FieldsOf(c)[i]);
    }
  }

  /** An encoded payload splits into its prefix, its version and its fields. */
  lemma EncodedFields(c: Commitment, valid: Checksum)
    requires WellFormed(c, valid)
    ensures Encode(c) != [] && FieldsAfter(Encode(c), Prefix(c), |FieldsOf(c)|) == Some(FieldsOf(c))
  {
    FieldsAreFields(c, valid);
    hide WellFormed, Strip, Split, Join;
    var head := [Prefix(c), "1"];
    var fields := head + FieldsOf(c);
    forall i | 0 <= i < |fields| ensures FieldOk(fields[i]) {
      if i >= 2 {
        assert fields[i] == FieldsOf(c)[i - 2];
      }
    }
    JoinEnds(fields);
    StripOfTrimmed(Join(fields));
    SplitOfJoin(fields);
    assert fields[2..] == FieldsOf(c);
    OneIsOne();
  }

  lemma OneIsOne()
    ensures VersionOk("1")
  {
    assert "1"[..0] == [];
  }

  lemma {:induction false} ValueBelow(s: string)
    requires forall i :: 0 <= i < |s| ==> IsDigit(s[i])
    ensures Value(s) < Power(|s|)
    decreases |s|
  {
    if s != [] {
      ValueBelow(s[..|s| - 1]);
    }
  }

  lemma NineDigits(s: string)
    requires NumberOk(s)
    ensures Value(s) < 1_000_000_000
  {
    ValueBelow(s);
    PowerGrows(|s|, 9);
    assert Power(9) == 1_000_000_000;
  }

  lemma {:induction false} PowerGrows(j: nat, k: nat)
    requires j <= k
    ensures Power(j) <= Power(k)
    decreases k
  {
    if j < k {
      PowerGrows(j, k - 1);
    }
  }

  lemma SmallNumberIsField(n: nat)
    requires n < 1_000_000_000
    ensures NumberOk(Show(n)) && Value(Show(n)) == n
  {
    assert Power(9) == 1_000_000_000;
    ShowLength(n, 9);
    ShowRoundTrip(n);
  }

  lemma RoundRecordReads(data: string, c: Commitment, valid: Checksum)
    requires WellFormed(c, valid) && FieldsAfter(data, Prefix(c), |FieldsOf(c)|) == Some(FieldsOf(c))
    ensures c.Signal? ==> DecodeSignal(data) == Some(c)
    ensures c.EntityBatch? ==> DecodeBatch(data) == Some(c)
  {
    hide FieldsAfter, Show, Value, HexOf, AllDigits;
    if c.Signal? || c.EntityBatch? {
      ShowRoundTrip(c.round);
    }
  }

  lemma NumberRecordReads(data: string, c: Commitment, valid: Checksum)
    requires WellFormed(c, valid) && FieldsAfter(data, Prefix(c), |FieldsOf(c)|) == Some(FieldsOf(c))
    ensures c.AccountOpen? ==> DecodeAccountOpen(data) == Some(c)
    ensures c.AccountReferral? ==> DecodeAccountReferral(data, valid) == Some(c)
  {
    hide FieldsAfter, Show, Value, NumberOk, AccountShape, HotkeyOf;
    if c.AccountOpen? || c.AccountReferral? {
      SmallNumberIsField(c.n);
    }
  }

  lemma AddressRecordReads(data: string, c: Commitment, valid: Checksum)
    requires WellFormed(c, valid) && FieldsAfter(data, Prefix(c), |FieldsOf(c)|) == Some(FieldsOf(c))
    ensures c.Referral? ==> DecodeReferral(data, valid) == Some(c)
    ensures c.ReferralTransfer? ==> DecodeTransfer(data, valid) == Some(c)
    ensures c.Succession? ==> DecodeSuccession(data, valid) == Some(c)
  {
    hide FieldsAfter, AddressShape, AccountShape, HotkeyOf;
  }

  /** The decoder of the payload's own kind reads it back. */
  lemma OwnDecoderReads(c: Commitment, valid: Checksum)
    requires WellFormed(c, valid)
    ensures Decoders(Encode(c), valid)[KindIndex(c)] == Some(c)
  {
    hide WellFormed, FieldsAfter, FieldsOf, Prefix, Encode, DecodeSignal, DecodeBatch, DecodeAccountOpen,
         DecodeAccountReferral,
         DecodeReferral, DecodeTransfer, DecodeSuccession;
    EncodedFields(c, valid);
    RoundRecordReads(Encode(c), c, valid);
    NumberRecordReads(Encode(c), c, valid);
    AddressRecordReads(Encode(c), c, valid);
  }

  /** Whatever is decoded is well formed. */
  lemma DecodedIsWellFormed(data: string, valid: Checksum, i: nat)
    requires i < 7 && Decoders(data, valid)[i].Some?
    ensures WellFormed(Decoders(data, valid)[i].value, valid)
  {
    hide FieldsAfter, Show, Value, HexOf, AddressShape, AccountShape, HotkeyOf, AllDigits;
    if i == 2 {
      NineDigits(FieldsAfter(data, "sn89acct", 1).value[0]);
    } else if i == 3 {
      NineDigits(FieldsAfter(data, "sn89refa", 2).value[0]);
    }
  }

  lemma {:induction false} FirstSomeIsOne(tries: seq<Option<Commitment>>)
    requires FirstSome(tries).Some?
    ensures exists i :: 0 <= i < |tries| && tries[i] == FirstSome(tries)
    decreases |tries|
  {
    if tries[0].Some? {
      assert tries[0] == FirstSome(tries);
    } else {
      FirstSomeIsOne(tries[1..]);
      var i :| 0 <= i < |tries| - 1 && tries[1..][i] == FirstSome(tries[1..]);
      assert tries[i + 1] == FirstSome(tries);
    }
  }

  /** Decoding an encoded record gives exactly that record back, and only well-formed records survive the trip. */
  lemma RoundTrip(c: Commitment, valid: Checksum)
    ensures DecodeAny(Encode(c), valid) == Some(c) <==> WellFormed(c, valid)
  {
    hide Decoders, WellFormed, Encode;
    if WellFormed(c, valid) {
      EncodedFields(c, valid);
      OwnDecoderReads(c, valid);
      AnyDecoderWins(Encode(c), valid, KindIndex(c));
    } else if DecodeAny(Encode(c), valid) == Some(c) {
      var tries := Decoders(Encode(c), valid);
      DecoderCount(Encode(c), valid);
      FirstSomeIsOne(tries);
      var i :| 0 <= i < |tries| && tries[i] == FirstSome(tries);
      DecodedIsWellFormed(Encode(c), valid, i);
      assert false;
    }
  }
}
