/** The error message that a card stack reports when an insert or delete leaves
    it with a card count that does not add up (`StringUtils` in Shuffle). */
module StringUtils {

  datatype Option<T> = None | Some(value: T)

  /** The four counts that the message reports, in the order they appear in it. */
  datatype UpdateCounts = UpdateCounts(newCount: int, oldCount: int, insertedCount: int, deletedCount: int)

  // ---------------------------------------------------------------------------
  // Decimal text of an integer, as Swift's string interpolation writes an `Int`
  // ---------------------------------------------------------------------------

  predicate IsDigit(c: char) {
    '0' <= c <= '9'
  }

  predicate AllDigits(s: string) {
    forall i :: 0 <= i < |s| ==> IsDigit(s[i])
  }

  function DigitChar(d: nat): (c: char)
    requires d < 10
    ensures IsDigit(c) && c as int - '0' as int == d
  {
    ('0' as int + d) as char
  }

  /** Shortest decimal text of `n`: at least one digit, no leading zero. */
  function NatToDecimal(n: nat): (s: string)
    ensures |s| >= 1 && AllDigits(s)
    ensures s[0] == '0' ==> n == 0
    ensures n < 10 <==> |s| == 1
    decreases n
  {
    if n < 10 then [DigitChar(n)] else NatToDecimal(n / 10) + [DigitChar(n % 10)]
  }

  /** Decimal text of an `Int`: a minus sign before the digits of a negative value. */
  function IntToDecimal(n: int): (s: string)
    ensures |s| >= 1
    ensures n >= 0 ==> AllDigits(s)
    ensures n < 0 ==> |s| >= 2 && s[0] == '-' && AllDigits(s[1..])
  {
    if n < 0 then "-" + NatToDecimal(-n) else NatToDecimal(n)
  }

  /** The value of a string of digits, read most significant digit first. */
  function DigitsValue(s: string): nat
    requires AllDigits(s)
  {
    if s == [] then 0 else DigitsValue(s[..|s| - 1]) * 10 + (s[|s| - 1] as int - '0' as int)
  }

  lemma {:induction false} DigitsValueOfDecimal(n: nat)
    ensures DigitsValue(NatToDecimal(n)) == n
  {
    if n >= 10 {
      var s := NatToDecimal(n);
      assert s[..|s| - 1] == NatToDecimal(n / 10);
      DigitsValueOfDecimal(n / 10);
    }
  }

  /** Length of the longest run of digits at the start of `s`. */
  function DigitRunLength(s: string): (k: nat)
    ensures k <= |s| && AllDigits(s[..k])
    ensures k < |s| ==> !IsDigit(s[k])
  {
    if s == [] || !IsDigit(s[0]) then 0
    else
      var k := 1 + DigitRunLength(s[1..]);
      assert s[..k] == [s[0]] + s[1..][..k - 1];
      k
  }

  lemma {:induction false} DigitRunOfDigitsThenOther(d: string, rest: string)
    requires AllDigits(d)
    requires rest == [] || !IsDigit(rest[0])
    ensures DigitRunLength(d + rest) == |d|
  {
    if d != [] {
      assert (d + rest)[1..] == d[1..] + rest;
      DigitRunOfDigitsThenOther(d[1..], rest);
    }
  }

  /** Reads an optional minus sign and a maximal run of digits from the front of
      `s`; gives the value read and the text after it. */
  function ReadInt(s: string): (r: Option<(int, string)>)
    ensures r.Some? ==> |r.value.1| < |s|
  {
    var negative := |s| > 0 && s[0] == '-';
    var body := if negative then s[1..] else s;
    var k := DigitRunLength(body);
    if k == 0 then None
    else
      var magnitude := DigitsValue(body[..k]);
      Some((if negative then -(magnitude as int) else magnitude, body[k..]))
  }

  lemma ReadIntOfDecimal(n: int, rest: string)
    requires rest == [] || !IsDigit(rest[0])
    ensures ReadInt(IntToDecimal(n) + rest) == Some((n, rest))
  {
    var d := NatToDecimal(if n < 0 then -n else n);
    DigitRunOfDigitsThenOther(d, rest);
    DigitsValueOfDecimal(if n < 0 then -n else n);
    assert (d + rest)[..|d|] == d;
    assert (d + rest)[|d|..] == rest;
    if n < 0 {
      assert IntToDecimal(n) + rest == "-" + (d + rest);
      assert ("-" + (d + rest))[1..] == d + rest;
    } else {
      assert IsDigit((d + rest)[0]);
    }
  }

  /** Reads an integer and then the literal text `lit`; gives the integer and
      what follows `lit`. */
  function ReadIntThen(s: string, lit: string): (r: Option<(int, string)>)
    ensures r.Some? ==> |r.value.1| + |lit| < |s|
  {
    match ReadInt(s)
    case None => None
    case Some((v, t)) => if lit <= t then Some((v, t[|lit|..])) else None
  }

  lemma ReadIntThenOfDecimal(n: int, lit: string, rest: string)
    requires lit != [] && !IsDigit(lit[0])
    ensures ReadIntThen(IntToDecimal(n) + lit + rest, lit) == Some((n, rest))
  {
    assert IntToDecimal(n) + lit + rest == IntToDecimal(n) + (lit + rest);
    ReadIntOfDecimal(n, lit + rest);
    assert (lit + rest)[|lit|..] == rest;
  }

  // ---------------------------------------------------------------------------
  // The message template
  // ---------------------------------------------------------------------------

  const ErrorPrefix: string := "Invalid update: invalid number of cards."

  /** Each count sits in its own pair of parentheses. */
  const SlotOpen: string := "("
  const SlotClose: string := ")"

  /** Template text before the new count's slot. */
  const NewCountLead: string :=
    ErrorPrefix + " The number of cards contained in the card stack after the update " + SlotOpen
  /** Template text between the new count and the old count. */
  const OldCountLead: string :=
    SlotClose + " must be equal to the number of cards contained in the card stack before the update " + SlotOpen
  /** Template text between the old count and the inserted count. */
  const InsertedCountLead: string :=
    SlotClose + ", plus or minus the number of cards inserted or deleted " + SlotOpen
  /** Template text between the inserted count and the deleted count (the
      inserted and deleted counts share one pair of parentheses). */
  const DeletedCountLead: string := " inserted, "
  /** Template text after the deleted count. */
  const ErrorSuffix: string := " deleted" + SlotClose

  /** The message with the four slots filled by the given texts, in order. */
  function FillTemplate(newText: string, oldText: string, insertedText: string, deletedText: string): (r: string)
    ensures ErrorPrefix <= r
    ensures |r| > |ErrorSuffix| && r[|r| - |ErrorSuffix|..] == ErrorSuffix
  {
    var head := NewCountLead + newText + OldCountLead + oldText + InsertedCountLead + insertedText
      + DeletedCountLead + deletedText;
    assert ErrorPrefix <= head by { assert head == ErrorPrefix + head[|ErrorPrefix|..]; }
    assert (head + ErrorSuffix)[|head|..] == ErrorSuffix;
    head + ErrorSuffix
  }

  /** Regrouping of a filled template around its slots, proved once for any
      texts so that the long literals need not be unfolded. */
  lemma Regroup(l0: string, a: string, l1: string, b: string, l2: string, c: string, l3: string, d: string, l4: string)
    ensures l0 + a + l1 + b + l2 + c + l3 + d + l4 == l0 + (a + l1 + (b + l2 + (c + l3 + (d + l4))))
  {
  }

  /** `createInvalidUpdateErrorString(newCount:oldCount:insertedCount:deletedCount:)`;
      the last two counts default to 0. */
  function CreateInvalidUpdateErrorString(newCount: int, oldCount: int,
                                          insertedCount: int := 0, deletedCount: int := 0): (r: string)
    ensures ErrorPrefix <= r
    ensures |r| > |ErrorSuffix| && r[|r| - |ErrorSuffix|..] == ErrorSuffix
  {
    FillTemplate(IntToDecimal(newCount), IntToDecimal(oldCount), IntToDecimal(insertedCount), IntToDecimal(deletedCount))
  }

  /** The text after each slot starts with a character that cannot continue a number. */
  lemma LeadsStartWithNonDigit()
    ensures OldCountLead != [] && !IsDigit(OldCountLead[0])
    ensures InsertedCountLead != [] && !IsDigit(InsertedCountLead[0])
    ensures DeletedCountLead != [] && !IsDigit(DeletedCountLead[0])
    ensures ErrorSuffix != [] && !IsDigit(ErrorSuffix[0])
  {
  }

  /** The texts that close the four slots, in order. */
  const SlotClosers: seq<string> := [OldCountLead, InsertedCountLead, DeletedCountLead, ErrorSuffix]

  /** Integers in decimal, each followed by its closer. */
  function Interleave(values: seq<int>, closers: seq<string>): string
    requires |values| == |closers|
  {
    if values == [] then [] else IntToDecimal(values[0]) + closers[0] + Interleave(values[1..], closers[1..])
  }

  /** Reads one integer before each closer, in order, and nothing after the last. */
  function ReadSlots(s: string, closers: seq<string>): (r: Option<seq<int>>)
    ensures r.Some? ==> |r.value| == |closers|
  {
    if closers == [] then (if s == [] then Some([]) else None)
    else
      match ReadIntThen(s, closers[0])
      case None => None
      case Some((v, rest)) =>
        match ReadSlots(rest, closers[1..])
        case None => None
        case Some(vs) => Some([v] + vs)
  }

  lemma {:induction false} ReadSlotsOfInterleave(values: seq<int>, closers: seq<string>)
    requires |values| == |closers|
    requires forall i :: 0 <= i < |closers| ==> closers[i] != [] && !IsDigit(closers[i][0])
    ensures ReadSlots(Interleave(values, closers), closers) == Some(values)
  {
    if values != [] {
      var rest := Interleave(values[1..], closers[1..]);
      assert Interleave(values, closers) == IntToDecimal(values[0]) + closers[0] + rest;
      ReadIntThenOfDecimal(values[0], closers[0], rest);
      ReadSlotsOfInterleave(values[1..], closers[1..]);
      assert [values[0]] + values[1..] == values;
    }
  }

  /** The filled template is the leading text followed by the four slots. */
  lemma FillTemplateAsSlots(newCount: int, oldCount: int, insertedCount: int, deletedCount: int)
    ensures CreateInvalidUpdateErrorString(newCount, oldCount, insertedCount, deletedCount)
         == NewCountLead + Interleave([newCount, oldCount, insertedCount, deletedCount], SlotClosers)
  {
    var a, b, c, d := IntToDecimal(newCount), IntToDecimal(oldCount), IntToDecimal(insertedCount), IntToDecimal(deletedCount);
    var vs := [newCount, oldCount, insertedCount, deletedCount];
    var cs := SlotClosers;
    assert Interleave(vs[3..], cs[3..]) == d + ErrorSuffix by {
      assert vs[3..][1..] == [];
    }
    assert Interleave(vs[2..], cs[2..]) == c + DeletedCountLead + (d + ErrorSuffix) by {
      assert vs[2..][1..] == vs[3..] && cs[2..][1..] == cs[3..];
    }
    assert Interleave(vs[1..], cs[1..]) == b + InsertedCountLead + (c + DeletedCountLead + (d + ErrorSuffix)) by {
      assert vs[1..][1..] == vs[2..] && cs[1..][1..] == cs[2..];
    }
    assert Interleave(vs, cs) == a + OldCountLead + (b + InsertedCountLead + (c + DeletedCountLead + (d + ErrorSuffix)));
    Regroup(NewCountLead, a, OldCountLead, b, InsertedCountLead, c, DeletedCountLead, d, ErrorSuffix);
  }

  /** Reads a message of the template's form back into its four counts, and
      gives `None` when the text does not follow the template. It is more
      lenient than the builder: a slot may also hold leading zeros or "-0",
      which the builder never writes. */
  function ParseInvalidUpdateErrorString(s: string): (r: Option<UpdateCounts>)
    ensures r.Some? ==> ErrorPrefix <= s
  {
    if !(NewCountLead <= s) then None
    else
      match ReadSlots(s[|NewCountLead|..], SlotClosers)
      case None => None
      case Some(v) => Some(UpdateCounts(v[0], v[1], v[2], v[3]))
  }

  /** Every count can be read back from its slot, in order: the message records
      the four counts exactly. */
  lemma ParseCreateRoundTrip(newCount: int, oldCount: int, insertedCount: int, deletedCount: int)
    ensures ParseInvalidUpdateErrorString(CreateInvalidUpdateErrorString(newCount, oldCount, insertedCount, deletedCount))
         == Some(UpdateCounts(newCount, oldCount, insertedCount, deletedCount))
  {
    var vs := [newCount, oldCount, insertedCount, deletedCount];
    FillTemplateAsSlots(newCount, oldCount, insertedCount, deletedCount);
    SlotClosersStartWithNonDigit();
    ReadSlotsOfInterleave(vs, SlotClosers);
    ParseAfterLead(Interleave(vs, SlotClosers));
  }

  lemma SlotClosersStartWithNonDigit()
    ensures |SlotClosers| == 4
    ensures forall i :: 0 <= i < |SlotClosers| ==> SlotClosers[i] != [] && !IsDigit(SlotClosers[i][0])
  {
    LeadsStartWithNonDigit();
  }

  /** Parsing a text that starts with the leading text reads the slots after it. */
  lemma ParseAfterLead(body: string)
    ensures ParseInvalidUpdateErrorString(NewCountLead + body)
         == match ReadSlots(body, SlotClosers)
            case None => None
            case Some(v) => Some(UpdateCounts(v[0], v[1], v[2], v[3]))
  {
    assert NewCountLead <= NewCountLead + body;
    assert (NewCountLead + body)[|NewCountLead|..] == body;
  }

  /** Different counts give different messages. */
  lemma CreateInjective(a: UpdateCounts, b: UpdateCounts)
    requires CreateInvalidUpdateErrorString(a.newCount, a.oldCount, a.insertedCount, a.deletedCount)
          == CreateInvalidUpdateErrorString(b.newCount, b.oldCount, b.insertedCount, b.deletedCount)
    ensures a == b
  {
    ParseCreateRoundTrip(a.newCount, a.oldCount, a.insertedCount, a.deletedCount);
    ParseCreateRoundTrip(b.newCount, b.oldCount, b.insertedCount, b.deletedCount);
  }

  /** Omitting the inserted and deleted counts reports them as 0. */
  lemma DefaultCountsAreZero(newCount: int, oldCount: int)
    ensures CreateInvalidUpdateErrorString(newCount, oldCount)
         == CreateInvalidUpdateErrorString(newCount, oldCount, 0, 0)
    ensures ParseInvalidUpdateErrorString(CreateInvalidUpdateErrorString(newCount, oldCount))
         == Some(UpdateCounts(newCount, oldCount, 0, 0))
  {
    ParseCreateRoundTrip(newCount, oldCount, 0, 0);
  }

  /** An interleaving is the interleaving of its first `k` slots followed by
      that of the rest. */
  lemma {:induction false} InterleaveConcat(values: seq<int>, closers: seq<string>, k: nat)
    requires |values| == |closers| && k <= |values|
    ensures Interleave(values, closers)
         == Interleave(values[..k], closers[..k]) + Interleave(values[k..], closers[k..])
  {
    if k == 0 {
      assert values[..0] == [] && closers[..0] == [];
      assert values[0..] == values && closers[0..] == closers;
    } else {
      var restValues, restClosers := values[1..], closers[1..];
      InterleaveConcat(restValues, restClosers, k - 1);
      assert values[..k][1..] == restValues[..k - 1] && closers[..k][1..] == restClosers[..k - 1];
      assert restValues[k - 1..] == values[k..] && restClosers[k - 1..] == closers[k..];
      ConcatAssociative(IntToDecimal(values[0]) + closers[0], Interleave(restValues[..k - 1], restClosers[..k - 1]),
                        Interleave(values[k..], closers[k..]));
    }
  }

  /** An interleaving splits around any one of its slots. */
  lemma InterleaveSplit(values: seq<int>, closers: seq<string>, k: nat)
    requires |values| == |closers| && k < |values|
    ensures Interleave(values, closers)
         == Interleave(values[..k], closers[..k])
            + (IntToDecimal(values[k]) + closers[k] + Interleave(values[k + 1..], closers[k + 1..]))
  {
    InterleaveConcat(values, closers, k);
    assert values[k..][1..] == values[k + 1..] && closers[k..][1..] == closers[k + 1..];
  }

  lemma ConcatAssociative(a: string, b: string, c: string)
    ensures (a + b) + c == a + (b + c)
  {
  }

  /** The message for counts given in slot order (new, old, inserted, deleted). */
  function MessageFor(counts: seq<int>): (r: string)
    requires |counts| == 4
    ensures r == CreateInvalidUpdateErrorString(counts[0], counts[1], counts[2], counts[3])
    ensures r == NewCountLead + Interleave(counts, SlotClosers)
  {
    FillTemplateAsSlots(counts[0], counts[1], counts[2], counts[3]);
    assert [counts[0], counts[1], counts[2], counts[3]] == counts;
    CreateInvalidUpdateErrorString(counts[0], counts[1], counts[2], counts[3])
  }

  /** The template text before slot `k`: it depends only on the counts before slot `k`. */
  function TextBeforeSlot(counts: seq<int>, k: nat): string
    requires k <= |counts| <= |SlotClosers|
  {
    NewCountLead + Interleave(counts[..k], SlotClosers[..k])
  }

  /** The text after slot `k`: the slot's closer, then the later slots. */
  function TextAfterSlot(counts: seq<int>, k: nat): string
    requires k < |counts| == |SlotClosers|
  {
    SlotClosers[k] + Interleave(counts[k + 1..], SlotClosers[k + 1..])
  }

  /** Where each count appears: count `k` fills slot `k`, between the text of
      the earlier slots and the closer of its own slot. */
  lemma CountInItsSlot(counts: seq<int>, k: nat)
    requires |counts| == 4 && k < 4
    ensures MessageFor(counts) == TextBeforeSlot(counts, k) + IntToDecimal(counts[k]) + TextAfterSlot(counts, k)
  {
    InterleaveSplit(counts, SlotClosers, k);
    var before := Interleave(counts[..k], SlotClosers[..k]);
    var after := Interleave(counts[k + 1..], SlotClosers[k + 1..]);
    RegroupAroundSlot(NewCountLead, before, IntToDecimal(counts[k]), SlotClosers[k], after);
  }

  lemma RegroupAroundSlot(lead: string, before: string, slot: string, closer: string, after: string)
    ensures lead + (before + (slot + closer + after)) == lead + before + slot + (closer + after)
  {
  }

  /** Changing one count changes only its own slot: the text before and after
      the slot stays the same. */
  lemma ChangingOneCountChangesOnlyItsSlot(counts: seq<int>, k: nat, v: int)
    requires |counts| == 4 && k < 4
    ensures MessageFor(counts[k := v])
         == TextBeforeSlot(counts, k) + IntToDecimal(v) + TextAfterSlot(counts, k)
  {
    var changed := counts[k := v];
    CountInItsSlot(changed, k);
    assert changed[..k] == counts[..k];
    assert changed[k + 1..] == counts[k + 1..];
  }

  /** Facts about the template text around the slots: the first three counts
      sit in parentheses, the inserted count is followed by " inserted, " and
      the deleted count by " deleted)". */
  lemma SlotDelimiters()
    ensures NewCountLead[|NewCountLead| - 1] == '(' && ErrorPrefix <= NewCountLead
    ensures OldCountLead[0] == ')' && OldCountLead[|OldCountLead| - 1] == '('
    ensures InsertedCountLead[0] == ')' && InsertedCountLead[|InsertedCountLead| - 1] == '('
    ensures SlotClosers[2] == " inserted, " && SlotClosers[3] == " deleted)"
  {
  }
}
