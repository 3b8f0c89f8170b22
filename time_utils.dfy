/** Relative-time labels ("3 minutes ago") from src/time_utils.rs. The clock
    is not read here: the current time `now` (seconds since the Unix epoch)
    is a parameter. */
module TimeUtils {
  import opened Format

  datatype TimeUnit = Seconds | Minutes | Hours | Days | Weeks

  /** The unit's word as it appears in the label. */
  function UnitWord(u: TimeUnit): string
  {
    match u
    case Seconds => "seconds"
    case Minutes => "minutes"
    case Hours => "hours"
    case Days => "days"
    case Weeks => "weeks"
  }

  /** Length of one unit, in seconds. */
  function UnitLength(u: TimeUnit): (len: nat)
    ensures len >= 1
  {
    match u
    case Seconds => 1
    case Minutes => 60
    case Hours => 3600
    case Days => 86400
    case Weeks => 604800
  }

  /** An elapsed time, as a whole number of some unit. */
  datatype Elapsed = Elapsed(amount: nat, unit: TimeUnit)

  /** The bucket a difference of `diff` seconds falls in, and the amount is
      `diff` divided by the bucket's unit, rounded down. */
  function Bucket(diff: nat): (e: Elapsed)
    ensures e.unit == Seconds <==> diff <= 59
    ensures e.unit == Minutes <==> 60 <= diff <= 3599
    ensures e.unit == Hours <==> 3600 <= diff <= 86399
    ensures e.unit == Days <==> 86400 <= diff <= 604799
    ensures e.unit == Weeks <==> 604800 <= diff
    ensures e.amount == diff / UnitLength(e.unit)
  {
    if diff <= 59 then Elapsed(diff, Seconds)
    else if diff <= 3599 then Elapsed(diff / 60, Minutes)
    else if diff <= 86399 then Elapsed(diff / 3600, Hours)
    else if diff <= 604799 then Elapsed(diff / 86400, Days)
    else Elapsed(diff / 604800, Weeks)
  }

  /** Every unit but the first and the last shows between 1 and one less than
      the next unit's multiple; weeks start at 1. */
  lemma BucketAmountRange(diff: nat)
    ensures Bucket(diff).unit == Seconds ==> Bucket(diff).amount <= 59
    ensures Bucket(diff).unit == Minutes ==> 1 <= Bucket(diff).amount <= 59
    ensures Bucket(diff).unit == Hours ==> 1 <= Bucket(diff).amount <= 23
    ensures Bucket(diff).unit == Days ==> 1 <= Bucket(diff).amount <= 6
    ensures Bucket(diff).unit == Weeks ==> 1 <= Bucket(diff).amount
  {
  }

  function ElapsedText(e: Elapsed): string
  {
    NatToString(e.amount) + " " + UnitWord(e.unit) + " ago"
  }

  /** `time_ago`: the label for an event at `epochTime` seen at `now`. The
      source subtracts two unsigned 64-bit values, so an event in the future
      is not allowed. */
  function TimeAgo(epochTime: nat, now: nat): (text: string)
    requires epochTime <= now
    ensures |text| > 4 && IsDigit(text[0]) && text[|text| - 4..] == " ago"
  {
    ElapsedText(Bucket(now - epochTime))
  }

  /** The label's number reads back as the bucket's amount and its word
      names the bucket's unit. */
  lemma TimeAgoReadsBack(epochTime: nat, now: nat)
    requires epochTime <= now
    ensures var e := Bucket(now - epochTime);
            var digits := NatToString(e.amount);
            && TimeAgo(epochTime, now)[..|digits|] == digits
            && ParseNat(digits) == e.amount
            && TimeAgo(epochTime, now)[|digits|..] == " " + UnitWord(e.unit) + " ago"
  {
    var e := Bucket(now - epochTime);
    var digits, tail := NatToString(e.amount), " " + UnitWord(e.unit) + " ago";
    ParseNatToString(e.amount);
    assert TimeAgo(epochTime, now) == digits + tail;
    assert (digits + tail)[..|digits|] == digits && (digits + tail)[|digits|..] == tail;
  }

  /** An event at the current second reads "0 seconds ago". */
  lemma TimeAgoJustNow(now: nat)
    ensures TimeAgo(now, now) == "0 seconds ago"
  {
    assert NatToString(0) == "0" && Bucket(0) == Elapsed(0, Seconds);
  }

  /** Exactly one minute, hour, day or week ago reads "1 minutes ago",
      "1 hours ago", "1 days ago" or "1 weeks ago": the unit word is always
      plural. */
  lemma TimeAgoOneUnit(u: TimeUnit, now: nat)
    requires UnitLength(u) <= now
    ensures TimeAgo(now - UnitLength(u), now) == "1 " + UnitWord(u) + " ago"
  {
    assert Bucket(UnitLength(u)) == Elapsed(1, u);
    assert NatToString(1) == "1";
  }
}
