/** Reading a `BO_` or ` SG_` line of the document back into the values it
    was written from. The converter itself never reads DBC text; the readers
    are the inverse the line layouts are checked against: every field can be
    recovered as long as it does not contain the first character of the text
    that follows it. */
module LineReader {
  import opened Wrappers
  import opened Numerals
  import opened DbcEncoder

  /** The text before the first occurrence of `sep`, and the text after
      it; None when `sep` does not occur. */
  function SplitOn(s: string, sep: string): (r: Option<(string, string)>)
    requires |sep| > 0
    ensures r.Some? ==> r.value.0 + sep + r.value.1 == s
    decreases |s|
  {
    if |s| < |sep| then None
    else if s[..|sep|] == sep then Some(([], s[|sep|..]))
    else
      var p :- SplitOn(s[1..], sep);
      Some(([s[0]] + p.0, p.1))
  }

  /** The text after a required `prefix`; None when it is absent. */
  function Expect(s: string, prefix: string): (r: Option<string>)
    ensures r.Some? <==> |prefix| <= |s| && s[..|prefix|] == prefix
    ensures r.Some? ==> s == prefix + r.value
  {
    if |prefix| <= |s| && s[..|prefix|] == prefix then Some(s[|prefix|..]) else None
  }

  /** Splitting finds the separator written right after a text that does
      not contain the separator's first character. */
  lemma {:induction false} SplitOnFirst(a: string, sep: string, b: string)
    requires |sep| > 0 && sep[0] !in a
    ensures SplitOn(a + (sep + b), sep) == Some((a, b))
    decreases |a|
  {
    var s := a + (sep + b);
    if |a| > 0 {
      assert s[0] != sep[0];
      assert s[1..] == a[1..] + (sep + b);
      SplitOnFirst(a[1..], sep, b);
      assert [a[0]] + a[1..] == a;
    } else {
      assert s == sep + b;
      assert s[..|sep|] == sep && s[|sep|..] == b;
    }
  }

  /** Moves one bracket of a concatenation. The line proofs below call it
      once per field, so that the solver need not find the regrouping of a
      long concatenation by itself. */
  lemma Regroup(p: string, x: string, t: string)
    ensures p + x + t == p + (x + t)
  {
  }

  /** An empty remainder leaves a text as it is; stated once so that the
      round-trip proofs can name it. */
  lemma NoTail(x: string)
    ensures x + [] == x
  {
  }

  lemma ExpectPrefix(prefix: string, s: string)
    ensures Expect(prefix + s, prefix) == Some(s)
  {
    assert (prefix + s)[..|prefix|] == prefix;
    assert (prefix + s)[|prefix|..] == s;
  }

  /** Reads `BO_ <id> <name>:<dlc> <sender>` and a final newline. */
  function ParseMessageLine(line: string): Option<Message> {
    var r0 :- Expect(line, "BO_ ");
    var p1 :- SplitOn(r0, " ");
    var id :- DecimalDigits(p1.0);
    var p2 :- SplitOn(p1.1, ":");
    var p3 :- SplitOn(p2.1, " ");
    var dlc :- ParseDecimal(p3.0);
    var p4 :- SplitOn(p3.1, "\n");
    if p4.1 == [] then Some(Message(id, p2.0, dlc, p4.0)) else None
  }

  /** Reads ` SG_ <name> : <start>|<length>@0+ ` and then the rest of the
      line with `ParseSignalTail`. */
  function ParseSignalLine(line: string): Option<Signal> {
    var r0 :- Expect(line, " SG_ ");
    var p1 :- SplitOn(r0, " : ");
    var p2 :- SplitOn(p1.1, "|");
    var startBit :- ParseDecimal(p2.0);
    var p3 :- SplitOn(p2.1, "@0+ ");
    var length :- ParseDecimal(p3.0);
    var tail :- ParseSignalTail(p3.1);
    Some(Signal(p1.0, startBit, length, tail.0, tail.1, tail.2, tail.3, tail.4, tail.5))
  }

  /** Reads `(<factor>,<offset>) [<min>|<max>] "<unit>"  <receiver>` and a
      final newline: the six text fields of a signal line, in that order. */
  function ParseSignalTail(text: string): Option<(string, string, string, string, string, string)> {
    var r0 :- Expect(text, "(");
    var p1 :- SplitOn(r0, ",");
    var p2 :- SplitOn(p1.1, ") [");
    var p3 :- SplitOn(p2.1, "|");
    var p4 :- SplitOn(p3.1, "] \"");
    var p5 :- SplitOn(p4.1, "\"  ");
    var p6 :- SplitOn(p5.1, "\n");
    if p6.1 == [] then Some((p1.0, p2.0, p3.0, p4.0, p5.0, p6.0)) else None
  }

  /** Decimal text holds no character the line layouts use as a separator. */
  lemma DecimalHasNoSeparator(i: int)
    ensures ' ' !in IntToDecimal(i) && '|' !in IntToDecimal(i) && '@' !in IntToDecimal(i)
    ensures i >= 0 ==> ' ' !in NatToDecimal(i)
  {
    var n: nat := if i < 0 then -i else i;
    var digits := NatToDecimal(n);
    assert forall j :: 0 <= j < |digits| ==> IsDecimalDigit(digits[j]);
    if i < 0 {
      assert IntToDecimal(i) == "-" + digits;
    }
  }

  /** Proof helper for `MessageLineRoundTrip`: the message line with its
      concatenation grouped from the right, field by field. */
  lemma MessageLineShape(m: Message)
    ensures MessageLine(m) ==
      "BO_ " + (NatToDecimal(m.id) + (" " + (m.name + (":" + (IntToDecimal(m.dlc) + (" " + (m.sender + "\n")))))))
  {
  }

  /** A message line reads back as the message it was written from, when the
      name holds no `:` and the sender no newline. */
  lemma MessageLineRoundTrip(m: Message)
    requires ':' !in m.name && '\n' !in m.sender
    ensures ParseMessageLine(MessageLine(m)) == Some(m)
  {
    var id := NatToDecimal(m.id);
    var dlc := IntToDecimal(m.dlc);
    DecimalHasNoSeparator(m.id);
    DecimalHasNoSeparator(m.dlc);
    DecimalRoundTrip(m.id);
    IntDecimalRoundTrip(m.dlc);
    var r3 := m.sender + "\n";
    var r2 := dlc + (" " + r3);
    var r1 := m.name + (":" + r2);
    var r0 := id + (" " + r1);
    MessageLineShape(m);
    ExpectPrefix("BO_ ", r0);
    SplitOnFirst(id, " ", r1);
    SplitOnFirst(m.name, ":", r2);
    SplitOnFirst(dlc, " ", r3);
    SplitOnFirst(m.sender, "\n", []);
    NoTail("\n");
  }

  /** The text of a signal line after its length field and the `@0+ `
      marker, grouped field by field. */
  function SignalTailText(s: Signal): string {
    "(" + (s.factor + ("," + (s.offset + (") [" + (s.min + ("|" + (s.max + ("] \"" + (s.unit + ("\"  " + (s.receiver + "\n")))))))))))
  }

  /** Proof helper for `SignalLineRoundTrip`: the signal line with its
      concatenation grouped from the right, field by field. */
  lemma SignalLineShape(s: Signal)
    ensures SignalLine(s) ==
      " SG_ " + (s.name + (" : " + (IntToDecimal(s.startBit) + ("|" + (IntToDecimal(s.length) + ("@0+ " + SignalTailText(s)))))))
  {
    var t19 := "\n";
    var t18 := s.receiver + t19;
    var t17 := "\"  " + t18;
    var t16 := s.unit + t17;
    var t15 := "] \"" + t16;
    var t14 := s.max + t15;
    var t13 := "|" + t14;
    var t12 := s.min + t13;
    var t11 := ") [" + t12;
    var t10 := s.offset + t11;
    var t9 := "," + t10;
    var t8 := s.factor + t9;
    var t7 := "(" + t8;
    var t6 := "@0+ " + t7;
    var t5 := IntToDecimal(s.length) + t6;
    var t4 := "|" + t5;
    var t3 := IntToDecimal(s.startBit) + t4;
    var t2 := " : " + t3;
    var t1 := s.name + t2;
    var p1 := " SG_ ";
    var p2 := p1 + s.name;
    var p3 := p2 + " : ";
    var p4 := p3 + IntToDecimal(s.startBit);
    var p5 := p4 + "|";
    var p6 := p5 + IntToDecimal(s.length);
    var p7 := p6 + "@0+ ";
    var p8 := p7 + "(";
    var p9 := p8 + s.factor;
    var p10 := p9 + ",";
    var p11 := p10 + s.offset;
    var p12 := p11 + ") [";
    var p13 := p12 + s.min;
    var p14 := p13 + "|";
    var p15 := p14 + s.max;
    var p16 := p15 + "] \"";
    var p17 := p16 + s.unit;
    var p18 := p17 + "\"  ";
    var p19 := p18 + s.receiver;
    Regroup(p18, s.receiver, t19);
    Regroup(p17, "\"  ", t18);
    Regroup(p16, s.unit, t17);
    Regroup(p15, "] \"", t16);
    Regroup(p14, s.max, t15);
    Regroup(p13, "|", t14);
    Regroup(p12, s.min, t13);
    Regroup(p11, ") [", t12);
    Regroup(p10, s.offset, t11);
    Regroup(p9, ",", t10);
    Regroup(p8, s.factor, t9);
    Regroup(p7, "(", t8);
    Regroup(p6, "@0+ ", t7);
    Regroup(p5, IntToDecimal(s.length), t6);
    Regroup(p4, "|", t5);
    Regroup(p3, IntToDecimal(s.startBit), t4);
    Regroup(p2, " : ", t3);
    Regroup(p1, s.name, t2);
  }

  /** The text fields after the length read back as written, when none
      holds the first character of the text that follows it. */
  lemma SignalTailRoundTrip(s: Signal)
    requires ',' !in s.factor && ')' !in s.offset && '|' !in s.min
    requires ']' !in s.max && '"' !in s.unit && '\n' !in s.receiver
    ensures ParseSignalTail(SignalTailText(s)) == Some((s.factor, s.offset, s.min, s.max, s.unit, s.receiver))
  {
    var t12 := s.receiver + "\n";
    var t11 := "\"  " + t12;
    var t10 := s.unit + t11;
    var t9 := "] \"" + t10;
    var t8 := s.max + t9;
    var t7 := "|" + t8;
    var t6 := s.min + t7;
    var t5 := ") [" + t6;
    var t4 := s.offset + t5;
    var t3 := "," + t4;
    var t2 := s.factor + t3;
    ExpectPrefix("(", t2);
    SplitOnFirst(s.factor, ",", t4);
    SplitOnFirst(s.offset, ") [", t6);
    SplitOnFirst(s.min, "|", t8);
    SplitOnFirst(s.max, "] \"", t10);
    SplitOnFirst(s.unit, "\"  ", t12);
    SplitOnFirst(s.receiver, "\n", []);
    NoTail("\n");
  }

  /** A signal line reads back as the signal it was written from, when no
      text field holds the first character of the text that follows it: a
      space in the name, `,` in the factor, `)` in the offset, `|` in the
      minimum, `]` in the maximum, `"` in the unit or a newline in the
      receiver. */
  lemma SignalLineRoundTrip(s: Signal)
    requires ' ' !in s.name && ',' !in s.factor && ')' !in s.offset && '|' !in s.min
    requires ']' !in s.max && '"' !in s.unit && '\n' !in s.receiver
    ensures ParseSignalLine(SignalLine(s)) == Some(s)
  {
    var start := IntToDecimal(s.startBit);
    var length := IntToDecimal(s.length);
    DecimalHasNoSeparator(s.startBit);
    DecimalHasNoSeparator(s.length);
    IntDecimalRoundTrip(s.startBit);
    IntDecimalRoundTrip(s.length);
    SignalLineShape(s);
    SignalTailRoundTrip(s);
    var t6 := "@0+ " + SignalTailText(s);
    var t5 := length + t6;
    var t4 := "|" + t5;
    var t3 := start + t4;
    var t2 := " : " + t3;
    var t1 := s.name + t2;
    ExpectPrefix(" SG_ ", t1);
    SplitOnFirst(s.name, " : ", t3);
    SplitOnFirst(start, "|", t5);
    SplitOnFirst(length, "@0+ ", SignalTailText(s));
  }
}
