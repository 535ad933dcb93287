/**
  Profiling: the mark sets that an instruction touches are written one after another as texts of
  fixed width, the opcode follows in decimal, and a map counts how often each such key occurs.
*/
module ProfilingKeys {
  import opened Division
  import opened Bitsets
  import opened TaintState

  // ------------------------------------------------------ text

  /** What bitset_str writes for these marks. */
  ghost function Text(m: Marks, n: nat): string {
    seq(n, p => if p in m then '1' else '0')
  }

  ghost function Texts(ms: seq<Marks>, n: nat): string {
    if ms == [] then "" else Text(ms[0], n) + Texts(ms[1..], n)
  }

  function Digit(d: nat): char
    requires d < 10
  {
    '0' + d as char
  }

  /** The opcode in decimal, without leading zeros. */
  function Decimal(op: nat): (s: string)
    ensures |s| >= 1
  {
    if op < 10 then [Digit(op)] else Decimal(op / 10) + [Digit(op % 10)]
  }

  ghost function Key(ms: seq<Marks>, n: nat, op: nat): string {
    Texts(ms, n) + Decimal(op)
  }

  ghost function Value(s: string): int {
    if s == "" then 0 else 10 * Value(s[..|s| - 1]) + (s[|s| - 1] as int - '0' as int)
  }

  lemma {:induction false} DecimalHasValue(op: nat)
    ensures Value(Decimal(op)) == op
  {
    if op < 10 {
      assert Decimal(op)[..0] == "";
    } else {
      DecimalHasValue(op / 10);
      assert Decimal(op)[..|Decimal(op)| - 1] == Decimal(op / 10);
    }
  }

  lemma {:induction false} TextsLength(ms: seq<Marks>, n: nat)
    ensures |Texts(ms, n)| == |ms| * n
  {
    if ms != [] {
      TextsLength(ms[1..], n);
      assert |ms| * n == n + (|ms| - 1) * n;
    }
  }

  lemma TextIsExact(a: Marks, b: Marks, n: nat)
    requires Bounded(a, n) && Bounded(b, n) && Text(a, n) == Text(b, n)
    ensures a == b
  {
    forall p: nat
      ensures p in a <==> p in b
    {
      if p < n {
        assert Text(a, n)[p] == Text(b, n)[p];
      }
    }
  }

  ghost predicate AllBounded(ms: seq<Marks>, n: nat) {
    forall i :: 0 <= i < |ms| ==> Bounded(ms[i], n)
  }

  lemma {:induction false} TextsAreExact(a: seq<Marks>, b: seq<Marks>, n: nat)
    requires AllBounded(a, n) && AllBounded(b, n) && |a| == |b| && Texts(a, n) == Texts(b, n)
    ensures a == b
  {
    if a != [] {
      var x, y := Text(a[0], n), Text(b[0], n);
      assert Texts(a, n)[..n] == x && Texts(b, n)[..n] == y;
      assert Texts(a, n)[n..] == Texts(a[1..], n) && Texts(b, n)[n..] == Texts(b[1..], n);
      TextIsExact(a[0], b[0], n);
      TextsAreExact(a[1..], b[1..], n);
      assert a == [a[0]] + a[1..] && b == [b[0]] + b[1..];
    }
  }

  /** The length of a key tells how many sets it lists, if the opcode is no longer than one of them. */
  lemma KeyLength(ms: seq<Marks>, n: nat, op: nat)
    requires |Decimal(op)| <= n
    ensures |ms| == (|Key(ms, n, op)| - 1) / n
  {
    TextsLength(ms, n);
    DivModUnique(|Key(ms, n, op)| - 1, n, |ms|, |Decimal(op)| - 1);
  }

  lemma KeyIsExact(a: seq<Marks>, b: seq<Marks>, n: nat, op: nat, op': nat)
    requires AllBounded(a, n) && AllBounded(b, n) && |Decimal(op)| <= n && |Decimal(op')| <= n
    requires Key(a, n, op) == Key(b, n, op')
    ensures a == b && op == op'
  {
    KeyLength(a, n, op);
    KeyLength(b, n, op');
    TextsLength(a, n);
    TextsLength(b, n);
    var k := |a| * n;
    assert Key(a, n, op)[..k] == Texts(a, n) && Key(b, n, op')[..k] == Texts(b, n);
    assert Key(a, n, op)[k..] == Decimal(op) && Key(b, n, op')[k..] == Decimal(op');
    TextsAreExact(a, b, n);
    DecimalHasValue(op);
    DecimalHasValue(op');
  }

  lemma {:induction false} TextsReads(ms: seq<Marks>, n: nat, i: nat)
    requires i < |ms|
    ensures i * n + n <= |Texts(ms, n)| && Texts(ms, n)[i * n..i * n + n] == Text(ms[i], n)
  {
    TextsLength(ms[1..], n);
    if i == 0 {
      assert 0 * n == 0;
    } else {
      TextsReads(ms[1..], n, i - 1);
      var rest, at := Texts(ms[1..], n), (i - 1) * n;
      assert i * n == n + at;
      assert Texts(ms, n)[n + at..n + at + n] == rest[at..at + n];
    }
  }

  /**
    What a key says: block i of it has '1' exactly at the marks of set i and '0' elsewhere, and the
    digits behind the blocks have the opcode as their value.
  */
  lemma KeyReads(ms: seq<Marks>, n: nat, op: nat)
    ensures |Key(ms, n, op)| > |ms| * n && Value(Key(ms, n, op)[|ms| * n..]) == op
    ensures forall i :: 0 <= i < |ms| ==>
              i * n + n <= |ms| * n && Spells(Key(ms, n, op)[i * n..i * n + n], ms[i], n)
  {
    TextsLength(ms, n);
    DecimalHasValue(op);
    assert Key(ms, n, op)[|ms| * n..] == Decimal(op);
    forall i | 0 <= i < |ms|
      ensures i * n + n <= |ms| * n && Spells(Key(ms, n, op)[i * n..i * n + n], ms[i], n)
    {
      TextsReads(ms, n, i);
      assert Key(ms, n, op)[i * n..i * n + n] == Texts(ms, n)[i * n..i * n + n];
    }
  }

  ghost predicate Spells(text: string, m: Marks, n: nat) {
    |text| == n && forall p :: 0 <= p < n ==> text[p] == if p in m then '1' else '0'
  }

  // ------------------------------------------------------ exactly when keys can be read back

  ghost function Power(n: nat): nat {
    if n == 0 then 1 else 10 * Power(n - 1)
  }

  lemma {:induction false} DigitsIffSmall(op: nat, n: nat)
    requires n > 0
    ensures |Decimal(op)| <= n <==> op < Power(n)
    decreases n
  {
    if n == 1 {
      assert Power(1) == 10 by { assert Power(0) == 1; }
    } else if op >= 10 {
      DigitsIffSmall(op / 10, n - 1);
    } else {
      PowerIsLarge(n);
    }
  }

  lemma {:induction false} PowerIsLarge(n: nat)
    ensures Power(n) >= 1 && (n > 0 ==> Power(n) >= 10)
  {
    if n > 0 {
      PowerIsLarge(n - 1);
    }
  }

  lemma {:induction false} PowerInDecimal(n: nat)
    ensures Decimal(Power(n)) == "1" + seq(n, _ => '0')
  {
    if n > 0 {
      PowerInDecimal(n - 1);
      PowerIsLarge(n);
      assert Power(n) / 10 == Power(n - 1) && Power(n) % 10 == 0;
      assert seq(n, _ => '0') == seq(n - 1, _ => '0') + ['0'];
    }
  }

  /** The smallest opcode that is too long reads like a set with one mark followed by opcode 0. */
  lemma TooLongIsAmbiguous(n: nat)
    requires n > 0
    ensures Key([], n, Power(n)) == Key([{0}], n, 0)
  {
    PowerInDecimal(n);
    assert [{0}][1..] == [];
    var one: Marks := {0};
    assert Text(one, n) == "1" + seq(n - 1, _ => '0');
    assert Texts([one], n) == Text(one, n) + Texts([], n);
    assert seq(n, _ => '0') == seq(n - 1, _ => '0') + ['0'];
  }

  /** Keys of these sets and opcodes, all opcodes being at most `most`, can be told apart. */
  ghost predicate Readable(n: nat, most: nat) {
    forall a, b, op: nat, op': nat ::
      AllBounded(a, n) && AllBounded(b, n) && op <= most && op' <= most && Key(a, n, op) == Key(b, n, op') ==>
      a == b && op == op'
  }

  /** Keys are readable exactly if no opcode has more digits than there are marks. */
  lemma ReadableIffShort(n: nat, most: nat)
    ensures Readable(n, most) <==> n > 0 && most < Power(n)
  {
    if n == 0 {
      var none: Marks := {};
      assert Text(none, 0) == "";
      assert [none][1..] == [];
      assert Texts([none], 0) == Text(none, 0) + Texts([], 0);
      assert Key([], 0, 0) == Key([none], 0, 0);
      assert AllBounded([], 0) && AllBounded([none], 0) && [none] != [];
    } else if most < Power(n) {
      forall a, b, op: nat, op': nat
        | AllBounded(a, n) && AllBounded(b, n) && op <= most && op' <= most && Key(a, n, op) == Key(b, n, op')
        ensures a == b && op == op'
      {
        DigitsIffSmall(op, n);
        DigitsIffSmall(op', n);
        KeyIsExact(a, b, n, op, op');
      }
    } else {
      var one: Marks := {0};
      TooLongIsAmbiguous(n);
      assert AllBounded([], n) && AllBounded([one], n) && [one] != [];
    }
  }

  // ------------------------------------------------------ counting

  /** One counted call: the sets printed since the last one, and the opcode. */
  datatype Entry = Entry(sets: seq<Marks>, opcode: nat)

  ghost function KeyOf(e: Entry, n: nat): string {
    Key(e.sets, n, e.opcode)
  }

  /** The sets printed but not yet recorded, and what was recorded. */
  datatype Prof = Prof(pending: seq<Marks>, log: seq<Entry>)

  /** How many entries of the log have this key. */
  ghost function Occurrences(log: seq<Entry>, n: nat, key: string): nat {
    if log == [] then 0
    else Occurrences(log[..|log| - 1], n, key) + if KeyOf(log[|log| - 1], n) == key then 1 else 0
  }

  /** How many entries of the log are this one. */
  ghost function Repeats(log: seq<Entry>, e: Entry): nat {
    if log == [] then 0 else Repeats(log[..|log| - 1], e) + if log[|log| - 1] == e then 1 else 0
  }

  ghost function Count(counts: map<string, nat>, key: string): nat {
    if key in counts then counts[key] else 0
  }

  ghost function Total(counts: map<string, nat>): nat
    decreases |counts.Keys|
  {
    if counts == map[] then 0
    else
      var key :| key in counts;
      assert (counts - {key}).Keys == counts.Keys - {key};
      counts[key] + Total(counts - {key})
  }

  lemma {:induction false} TotalWithout(counts: map<string, nat>, key: string)
    requires key in counts
    ensures Total(counts) == counts[key] + Total(counts - {key})
    decreases |counts.Keys|
  {
    var k :| k in counts && Total(counts) == counts[k] + Total(counts - {k});
    if k != key {
      assert (counts - {k}).Keys == counts.Keys - {k};
      assert (counts - {key}).Keys == counts.Keys - {key};
      TotalWithout(counts - {k}, key);
      TotalWithout(counts - {key}, k);
      assert counts - {k} - {key} == counts - {key} - {k};
    }
  }

  lemma TotalCounts(counts: map<string, nat>, key: string)
    ensures Total(counts[key := Count(counts, key) + 1]) == Total(counts) + 1
  {
    var more := counts[key := Count(counts, key) + 1];
    TotalWithout(more, key);
    assert more - {key} == counts - {key};
    if key in counts {
      TotalWithout(counts, key);
    } else {
      assert counts - {key} == counts;
    }
  }

  ghost predicate IsHistogram(counts: map<string, nat>, log: seq<Entry>, n: nat) {
    && Total(counts) == |log|
    && forall key :: Count(counts, key) == Occurrences(log, n, key)
  }

  lemma OccurrencesGrow(log: seq<Entry>, n: nat, e: Entry, key: string)
    ensures Occurrences(log + [e], n, key) == Occurrences(log, n, key) + if KeyOf(e, n) == key then 1 else 0
  {
    assert (log + [e])[..|log|] == log;
  }

  lemma HistogramGrows(counts: map<string, nat>, log: seq<Entry>, n: nat, e: Entry, mine: string)
    requires IsHistogram(counts, log, n) && mine == KeyOf(e, n)
    ensures IsHistogram(counts[mine := Count(counts, mine) + 1], log + [e], n)
  {
    var more := counts[mine := Count(counts, mine) + 1];
    TotalCounts(counts, mine);
    forall key
      ensures Count(more, key) == Occurrences(log + [e], n, key)
    {
      OccurrencesGrow(log, n, e, key);
      assert Count(counts, key) == Occurrences(log, n, key);
    }
  }

  ghost predicate Short(e: Entry, n: nat) {
    AllBounded(e.sets, n) && |Decimal(e.opcode)| <= n
  }

  /** With opcodes no longer than a set, the map counts entries, not just keys. */
  lemma {:induction false} CountsAreExact(log: seq<Entry>, n: nat, e: Entry)
    requires Short(e, n) && forall i :: 0 <= i < |log| ==> Short(log[i], n)
    ensures Occurrences(log, n, KeyOf(e, n)) == Repeats(log, e)
  {
    if log != [] {
      var k := |log| - 1;
      CountsAreExact(log[..k], n, e);
      if KeyOf(log[k], n) == KeyOf(e, n) {
        KeyIsExact(log[k].sets, e.sets, n, log[k].opcode, e.opcode);
      }
    }
  }

  lemma {:induction false} TextsGrow(ms: seq<Marks>, m: Marks, n: nat)
    ensures Texts(ms + [m], n) == Texts(ms, n) + Text(m, n)
  {
    if ms == [] {
      assert ([] + [m])[1..] == [];
    } else {
      assert (ms + [m])[1..] == ms[1..] + [m];
      TextsGrow(ms[1..], m, n);
    }
  }

  class Profiler {
    const width: nat
    var profStream: string
    var profilingMap: map<string, nat>

    ghost var pending: seq<Marks>
    ghost var log: seq<Entry>

    ghost function Value(): Prof
      reads this
    {
      Prof(pending, log)
    }

    ghost predicate Valid()
      reads this
    {
      profStream == Texts(pending, width) && AllBounded(pending, width) && IsHistogram(profilingMap, log, width)
    }

    constructor (width: nat)
      ensures Valid() && this.width == width && pending == [] && log == [] && profilingMap == map[]
    {
      this.width, profStream, profilingMap, pending, log := width, "", map[], [], [];
    }

    method Print(b: Bitset)
      requires Valid() && b.Valid() && b.nbits == width
      modifies this`profStream, this`pending
      ensures Valid() && Value() == Prof(old(pending) + [b.Marks()], old(log))
    {
      var text := b.Str();
      assert text == Text(b.Marks(), width);
      TextsGrow(pending, b.Marks(), width);
      profStream := profStream + text;
      pending := pending + [b.Marks()];
    }

    method Record(opcode: nat)
      requires Valid()
      modifies this`profStream, this`profilingMap, this`pending, this`log
      ensures Valid() && Value() == Prof([], old(log) + [Entry(old(pending), opcode)])
    {
      var key := profStream + Decimal(opcode);
      HistogramGrows(profilingMap, log, width, Entry(pending, opcode), key);
      if key in profilingMap {
        profilingMap := profilingMap[key := profilingMap[key] + 1];
      } else {
        profilingMap := profilingMap[key := 1];
      }
      profStream := "";
      log, pending := log + [Entry(pending, opcode)], [];
    }
  }
}
