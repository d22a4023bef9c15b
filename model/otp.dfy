/**
 * One-time codes for confirming a booking: six random digits, valid for ten
 * minutes, each record usable once. The random draws and the current
 * instant (seconds) are parameters.
 */
module Otp {
  import opened Wrappers
  import opened Text

  /** What Python raises on the paths modelled. */
  datatype PyError = ValueError | AttributeError | OverflowError

  /** How long a code stays valid, in seconds. */
  const Lifetime: int := 10 * 60

  /** `str(d)` for a decimal digit. */
  function DigitChar(d: int): (c: char)
    requires 0 <= d <= 9
    ensures IsDigit(c)
  {
    ('0' as int + d) as char
  }

  /** `generate_otp()`, given the six draws of `random.randint(0, 9)`. */
  function GenerateOtp(draws: seq<int>): (code: string)
    requires |draws| == 6 && forall i :: 0 <= i < 6 ==> 0 <= draws[i] <= 9
    ensures |code| == 6 && AllDigits(code)
    ensures forall i :: 0 <= i < 6 ==> code[i] as int - '0' as int == draws[i]
  {
    seq(6, i requires 0 <= i < 6 => DigitChar(draws[i]))
  }

  /** The draws that produce a given code. */
  function DrawsOf(code: string): (draws: seq<int>)
    requires |code| == 6 && AllDigits(code)
    ensures |draws| == 6 && forall i :: 0 <= i < 6 ==> 0 <= draws[i] <= 9
  {
    seq(6, i requires 0 <= i < 6 => code[i] as int - '0' as int)
  }

  /** Every string of six digits is a code `generate_otp` can return. */
  lemma EveryCodeGenerated(code: string)
    requires |code| == 6 && AllDigits(code)
    ensures GenerateOtp(DrawsOf(code)) == code
  {
    var g := GenerateOtp(DrawsOf(code));
    forall i | 0 <= i < 6 ensures g[i] == code[i] {
      assert IsDigit(code[i]);
    }
  }

  /** A row of the `otp` table; instants are seconds. */
  datatype OtpRecord = OtpRecord(id: int, contact: string, code: string, expiresAt: int, verified: bool, createdAt: int)

  /** The record would let `verify_otp(contact, code)` succeed at `now`. */
  predicate Matches(r: OtpRecord, contact: string, code: string, now: int) {
    r.contact == contact && r.code == code && r.expiresAt > now && !r.verified
  }

  /**
   * The record the query picks: the matching one created last; among several
   * created at the same instant, the first in table order.
   */
  function Newest(records: seq<OtpRecord>, contact: string, code: string, now: int): (r: Option<nat>)
    ensures r.Some? ==> r.value < |records| && Matches(records[r.value], contact, code, now)
    ensures r.Some? ==> forall j :: 0 <= j < |records| && Matches(records[j], contact, code, now)
                                    ==> records[j].createdAt <= records[r.value].createdAt
    ensures r.None? <==> forall j :: 0 <= j < |records| ==> !Matches(records[j], contact, code, now)
    decreases |records|
  {
    if records == [] then None
    else
      var last := |records| - 1;
      var prefix := records[..last];
      assert forall j :: 0 <= j < last ==> records[j] == prefix[j];
      var best := Newest(prefix, contact, code, now);
      if !Matches(records[last], contact, code, now) then best
      else if best.Some? && records[last].createdAt <= records[best.value].createdAt then best
      else Some(last)
  }

  /** How many records would let `verify_otp(contact, code)` succeed at `now`. */
  function MatchCount(records: seq<OtpRecord>, contact: string, code: string, now: int): (n: nat)
    ensures n <= |records|
  {
    if records == [] then 0
    else (if Matches(records[0], contact, code, now) then 1 else 0) + MatchCount(records[1..], contact, code, now)
  }

  lemma {:induction false} NoMatchCountsZero(records: seq<OtpRecord>, contact: string, code: string, now: int)
    ensures MatchCount(records, contact, code, now) == 0
            <==> forall j :: 0 <= j < |records| ==> !Matches(records[j], contact, code, now)
  {
    if records != [] {
      NoMatchCountsZero(records[1..], contact, code, now);
      assert forall j :: 1 <= j < |records| ==> records[j] == records[1..][j - 1];
    }
  }

  /** Marking record `i` verified removes exactly that one from the matching records. */
  lemma {:induction false} VerifyingRemovesOne(records: seq<OtpRecord>, i: nat, contact: string, code: string, now: int)
    requires i < |records| && Matches(records[i], contact, code, now)
    ensures MatchCount(records[i := records[i].(verified := true)], contact, code, now)
            == MatchCount(records, contact, code, now) - 1
  {
    var after := records[i := records[i].(verified := true)];
    if i > 0 {
      assert after[1..] == records[1..][i - 1 := records[i].(verified := true)];
      VerifyingRemovesOne(records[1..], i - 1, contact, code, now);
    } else {
      assert after[1..] == records[1..];
    }
  }

  /** `verify_otp` on the table's rows: whether it succeeds, and the rows afterwards. */
  function Verify(records: seq<OtpRecord>, contact: string, code: string, now: int): (seq<OtpRecord>, bool) {
    match Newest(records, contact, code, now)
    case None => (records, false)
    case Some(i) => (records[i := records[i].(verified := true)], true)
  }

  /** A code verifies at most as many times as there are records holding it: each success uses one up. */
  lemma VerifyUsesOneRecord(records: seq<OtpRecord>, contact: string, code: string, now: int)
    ensures var (after, ok) := Verify(records, contact, code, now);
      && (ok <==> MatchCount(records, contact, code, now) > 0)
      && (ok ==> MatchCount(after, contact, code, now) == MatchCount(records, contact, code, now) - 1)
      && (!ok ==> after == records)
  {
    NoMatchCountsZero(records, contact, code, now);
    var i := Newest(records, contact, code, now);
    if i.Some? {
      VerifyingRemovesOne(records, i.value, contact, code, now);
    }
  }

  /** With a single record holding the code, the second verification fails. */
  lemma SecondUseFails(records: seq<OtpRecord>, contact: string, code: string, now: int, later: int)
    requires MatchCount(records, contact, code, now) == 1 && later >= now
    ensures var (after, ok) := Verify(records, contact, code, now);
      ok && !Verify(after, contact, code, later).1
  {
    VerifyUsesOneRecord(records, contact, code, now);
    var after := Verify(records, contact, code, now).0;
    NoMatchCountsZero(after, contact, code, now);
    forall j | 0 <= j < |after| ensures !Matches(after[j], contact, code, later) {
      assert !Matches(after[j], contact, code, now);
    }
  }

  /** `db.query(OTP)`: the `otp` table, with the next id it hands out. */
  class OtpTable {
    var records: seq<OtpRecord>
    var nextId: int

    /** Ids are below `nextId`. */
    predicate Valid()
      reads this
    {
      forall j :: 0 <= j < |records| ==> records[j].id < nextId
    }

    constructor()
      ensures records == [] && Valid()
    {
      records := [];
      nextId := 1;
    }

    /** `create_otp_record(contact)` at instant `now`, with the draws of `generate_otp`. */
    method CreateOtpRecord(contact: string, draws: seq<int>, now: int) returns (record: OtpRecord)
      requires Valid()
      requires |draws| == 6 && forall i :: 0 <= i < 6 ==> 0 <= draws[i] <= 9
      modifies this
      ensures Valid()
      ensures record == OtpRecord(old(nextId), contact, GenerateOtp(draws), now + Lifetime, false, now)
      ensures records == old(records) + [record] && nextId == old(nextId) + 1
    {
      record := OtpRecord(nextId, contact, GenerateOtp(draws), now + Lifetime, false, now);
      records := records + [record];
      nextId := nextId + 1;
    }

    /** `verify_otp(contact, code)` at instant `now`. */
    method VerifyOtp(contact: string, code: string, now: int) returns (ok: bool)
      requires Valid()
      modifies this
      ensures Valid() && nextId == old(nextId)
      ensures (records, ok) == Verify(old(records), contact, code, now)
      ensures ok <==> exists j :: 0 <= j < |old(records)| && Matches(old(records)[j], contact, code, now)
      ensures !ok ==> records == old(records)
    {
      var found := Newest(records, contact, code, now);
      if found.None? {
        return false;
      }
      var i := found.value;
      records := records[i := records[i].(verified := true)];
      return true;
    }
  }

  /**
   * `datetime.now(datetime.timezone.utc)` as written: `datetime` names the
   * class imported from the module of that name, and the class has no
   * attribute `timezone`, so the lookup raises before the clock is read.
   */
  function UtcNowAsWritten(clock: int): Result<int, PyError> {
    Err(AttributeError)
  }

  /** `create_otp_record(contact)` as written, over the table's rows and the next id. */
  function CreateOtpRecordAsWritten(records: seq<OtpRecord>, nextId: int, contact: string, draws: seq<int>, clock: int)
    : Result<(seq<OtpRecord>, OtpRecord), PyError>
    requires |draws| == 6 && forall i :: 0 <= i < 6 ==> 0 <= draws[i] <= 9
  {
    var code := GenerateOtp(draws);
    match UtcNowAsWritten(clock)
    case Err(e) => Err(e)
    case Ok(now) =>
      var record := OtpRecord(nextId, contact, code, now + Lifetime, false, now);
      Ok((records + [record], record))
  }

  /** `verify_otp(contact, code)` as written: the second count query (lines 32-35) already reads the clock. */
  function VerifyOtpAsWritten(records: seq<OtpRecord>, contact: string, code: string, clock: int)
    : Result<(seq<OtpRecord>, bool), PyError>
  {
    match UtcNowAsWritten(clock)
    case Err(e) => Err(e)
    case Ok(now) => Ok(Verify(records, contact, code, now))
  }

  /** As written, no code is ever issued and none is ever accepted, whatever the table, the contact and the instant. */
  lemma OtpAsWrittenAlwaysRaises(records: seq<OtpRecord>, nextId: int, contact: string, code: string, draws: seq<int>, clock: int)
    requires |draws| == 6 && forall i :: 0 <= i < 6 ==> 0 <= draws[i] <= 9
    ensures CreateOtpRecordAsWritten(records, nextId, contact, draws, clock) == Err(AttributeError)
    ensures VerifyOtpAsWritten(records, contact, code, clock) == Err(AttributeError)
  {
  }

  /** A code just created verifies for its contact until it expires ten minutes later. */
  lemma NewCodeVerifies(records: seq<OtpRecord>, record: OtpRecord, created: int, now: int)
    requires !record.verified && record.expiresAt == created + Lifetime
    requires created <= now < created + Lifetime
    ensures Verify(records + [record], record.contact, record.code, now).1
  {
    var all := records + [record];
    assert Matches(all[|records|], record.contact, record.code, now);
  }

  /**
   * A code every one of whose records for the contact has expired (for a
   * record made by `CreateOtpRecord`, ten minutes after it was created) is
   * rejected, and the table is left as it was.
   */
  lemma ExpiredCodeRejected(records: seq<OtpRecord>, contact: string, code: string, now: int)
    requires forall j :: 0 <= j < |records| && records[j].contact == contact && records[j].code == code
                         ==> records[j].expiresAt <= now
    ensures Verify(records, contact, code, now) == (records, false)
  {
    assert forall j :: 0 <= j < |records| ==> !Matches(records[j], contact, code, now);
  }
}
