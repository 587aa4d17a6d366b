/** The feedback banner of components/captcha/FeedbackDisplay.tsx: the missed-number
    message and the conditions under which each banner is rendered. */
module Feedback {
  import opened Wrappers

  // ---------------------------------------------------------------------------
  // Number formatting (what `${n}` and `join(", ")` produce for the ids)

  function DigitChar(d: nat): char
    requires d < 10
  {
    ('0' as int + d) as char
  }

  /** Decimal notation of n without leading zeros. */
  function NatToString(n: nat): string
    decreases n
  {
    if n < 10 then [DigitChar(n)] else NatToString(n / 10) + [DigitChar(n % 10)]
  }

  /** `ids.join(", ")`. */
  function JoinIds(ids: seq<nat>): string
    decreases |ids|
  {
    if |ids| == 0 then ""
    else if |ids| == 1 then NatToString(ids[0])
    else NatToString(ids[0]) + ", " + JoinIds(ids[1..])
  }

  const SinglePrefix: string := "You missed number "
  const SeveralPrefix: string := "You missed numbers "
  const CountPrefix: string := "You missed "
  const CountSuffix: string := " numbers"

  /** `getFeedbackMessage`: nothing for no missed ids, the id itself for one, the list
      for two or three, and only the count for more. */
  function Message(missed: seq<nat>): (s: string)
    ensures s == "" <==> |missed| == 0
  {
    if |missed| == 0 then ""
    else if |missed| == 1 then SinglePrefix + NatToString(missed[0])
    else if |missed| <= 3 then SeveralPrefix + JoinIds(missed)
    else CountPrefix + NatToString(|missed|) + CountSuffix
  }

  /** The missed banner renders only when it is switched on and has ids to report. */
  predicate MissedBannerShown(showMissed: bool, missed: seq<nat>) {
    showMissed && |missed| > 0
  }

  /** The success banner depends on its flag alone. */
  predicate SuccessBannerShown(showSuccess: bool) {
    showSuccess
  }

  /** A shown missed banner always carries a non-empty message. */
  lemma ShownBannerHasText(showMissed: bool, missed: seq<nat>)
    ensures MissedBannerShown(showMissed, missed) ==> showMissed && Message(missed) != ""
    ensures !showMissed ==> !MissedBannerShown(showMissed, missed)
  {
  }

  // ---------------------------------------------------------------------------
  // Reading a message back: what a user learns from the banner

  /** What a message says: nothing, one missed id (singular wording), a list of missed ids
      (plural wording), a count of missed numbers, or none of these. */
  datatype Reading = Silent | Single(id: nat) | Listed(ids: seq<nat>) | Counted(count: nat) | Unreadable

  function DigitValue(c: char): Option<nat> {
    if '0' <= c <= '9' then Some((c as int - '0' as int) as nat) else None
  }

  function ParseNat(s: string): Option<nat>
    decreases |s|
  {
    if |s| == 0 then None
    else match DigitValue(s[|s| - 1])
      case None => None
      case Some(d) =>
        if |s| == 1 then Some(d)
        else match ParseNat(s[..|s| - 1])
          case None => None
          case Some(p) => Some(10 * p + d)
  }

  /** Position of the first comma in s, or |s| when there is none. */
  function FirstComma(s: string): (i: nat)
    ensures i <= |s|
    decreases |s|
  {
    if |s| == 0 then 0 else if s[0] == ',' then 0 else 1 + FirstComma(s[1..])
  }

  /** Splits "a, b, c" on ", " and reads each part as a number. */
  function ParseList(s: string): Option<seq<nat>>
    decreases |s|
  {
    var i := FirstComma(s);
    if i == |s| then
      match ParseNat(s)
      case None => None
      case Some(n) => Some([n])
    else if i + 1 < |s| && s[i + 1] == ' ' then
      match ParseNat(s[..i])
      case None => None
      case Some(n) =>
        match ParseList(s[i + 2..])
        case None => None
        case Some(rest) => Some([n] + rest)
    else None
  }

  function ReadMessage(s: string): Reading {
    if s == "" then Silent
    else if |SeveralPrefix| <= |s| && s[..|SeveralPrefix|] == SeveralPrefix then
      match ParseList(s[|SeveralPrefix|..])
      case None => Unreadable
      case Some(ids) => Listed(ids)
    else if |SinglePrefix| <= |s| && s[..|SinglePrefix|] == SinglePrefix then
      match ParseNat(s[|SinglePrefix|..])
      case None => Unreadable
      case Some(n) => Single(n)
    else if |CountPrefix| + |CountSuffix| <= |s| && s[..|CountPrefix|] == CountPrefix
            && s[|s| - |CountSuffix|..] == CountSuffix then
      match ParseNat(s[|CountPrefix|..|s| - |CountSuffix|])
      case None => Unreadable
      case Some(n) => Counted(n)
    else Unreadable
  }

  lemma {:induction false} NatToStringDigits(n: nat)
    ensures |NatToString(n)| >= 1
    ensures forall i :: 0 <= i < |NatToString(n)| ==> '0' <= NatToString(n)[i] <= '9'
    decreases n
  {
    if n >= 10 {
      NatToStringDigits(n / 10);
    }
  }

  lemma {:induction false} ParseNatToString(n: nat)
    ensures ParseNat(NatToString(n)) == Some(n)
    decreases n
  {
    if n >= 10 {
      var s := NatToString(n);
      NatToStringDigits(n / 10);
      ParseNatToString(n / 10);
      assert s[..|s| - 1] == NatToString(n / 10);
      assert DigitValue(s[|s| - 1]) == Some(n % 10);
    }
  }

  lemma {:induction false} FirstCommaSkips(d: string, t: string)
    requires forall i :: 0 <= i < |d| ==> d[i] != ','
    ensures FirstComma(d + t) == |d| + FirstComma(t)
    decreases |d|
  {
    if |d| > 0 {
      var s := d + t;
      assert s[0] == d[0] && d[0] != ',';
      assert s[1..] == d[1..] + t;
      FirstCommaSkips(d[1..], t);
      assert FirstComma(s) == 1 + FirstComma(s[1..]);
    } else {
      assert d + t == t;
    }
  }

  lemma {:induction false} ParseJoinIds(ids: seq<nat>)
    requires |ids| >= 1
    ensures ParseList(JoinIds(ids)) == Some(ids)
    decreases |ids|
  {
    var d := NatToString(ids[0]);
    NatToStringDigits(ids[0]);
    ParseNatToString(ids[0]);
    if |ids| == 1 {
      FirstCommaSkips(d, "");
      assert d + "" == d;
      assert JoinIds(ids) == d;
      assert FirstComma(d) == |d|;
      assert ParseList(d) == Some([ids[0]]);
      assert [ids[0]] == ids;
    } else {
      var rest := JoinIds(ids[1..]);
      var s := d + ", " + rest;
      assert JoinIds(ids) == s;
      assert s == d + (", " + rest);
      FirstCommaSkips(d, ", " + rest);
      assert FirstComma(s) == |d|;
      assert s[|d| + 1] == ' ';
      assert s[..|d|] == d;
      assert s[|d| + 2..] == rest;
      ParseJoinIds(ids[1..]);
      assert ParseList(s) == Some([ids[0]] + ids[1..]);
      assert [ids[0]] + ids[1..] == ids;
    }
  }

  /** Reading the message recovers what it reports: nothing, the one id in the singular
      wording, the ids themselves in the plural wording for two or three, and the count for more. */
  lemma ReadMessageInverts(missed: seq<nat>)
    ensures ReadMessage(Message(missed)) ==
      if |missed| == 0 then Silent
      else if |missed| == 1 then Single(missed[0])
      else if |missed| <= 3 then Listed(missed)
      else Counted(|missed|)
  {
    var s := Message(missed);
    if |missed| == 0 {
    } else if |missed| == 1 {
      var d := NatToString(missed[0]);
      NatToStringDigits(missed[0]);
      ParseNatToString(missed[0]);
      assert s[17] == ' ' && SeveralPrefix[17] == 's';
      assert s[..|SinglePrefix|] == SinglePrefix;
      assert s[|SinglePrefix|..] == d;
    } else if |missed| <= 3 {
      ParseJoinIds(missed);
      assert s[..|SeveralPrefix|] == SeveralPrefix;
      assert s[|SeveralPrefix|..] == JoinIds(missed);
    } else if |missed| > 3 {
      var d := NatToString(|missed|);
      NatToStringDigits(|missed|);
      ParseNatToString(|missed|);
      assert '0' <= s[11] <= '9';
      assert s[11] != SeveralPrefix[11] && s[11] != SinglePrefix[11];
      assert s[..|CountPrefix|] == CountPrefix;
      assert s[|s| - |CountSuffix|..] == CountSuffix;
      assert s[|CountPrefix|..|s| - |CountSuffix|] == d;
    }
  }

  /** The exact wording on a few concrete inputs. */
  lemma MessageOneMissed()
    ensures Message([3]) == "You missed number 3"
  {
    assert NatToString(3) == "3";
  }

  lemma MessageTwoMissed()
    ensures Message([2, 4]) == "You missed numbers 2, 4"
    ensures Message([4, 5]) == "You missed numbers 4, 5"
  {
    assert NatToString(2) == "2" && NatToString(4) == "4" && NatToString(5) == "5";
    assert [2, 4][1..] == [4];
    assert [4, 5][1..] == [5];
  }

  lemma MessageManyMissed()
    ensures Message([1, 2, 3, 4]) == "You missed 4 numbers"
  {
    assert NatToString(4) == "4";
  }
}
