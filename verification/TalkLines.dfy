/** What the lines that users type make the minitalk server do. */
module TalkLines {
  import opened CStrings
  import opened Options
  import opened Numerals
  import opened Talk

  lemma {:induction false} NoNulWhole(s: string)
    requires NUL !in s
    ensures UpToNul(s) == s
  {
    if s != "" {
      assert s[0] in s && forall c :: c in s[1..] ==> c in s;
      NoNulWhole(s[1..]);
      assert [s[0]] + s[1..] == s;
    }
  }

  /** A line that ends with a newline and holds no NUL is its text. */
  lemma LineText(s: string)
    requires NUL !in s
    ensures Chopped(s + "\n") == s
  {
    assert (s + "\n")[..|s + "\n"| - 1] == s;
    NoNulWhole(s);
  }

  predicate FitsBuffer(s: string) { |s| + 1 <= 255 }

  lemma NumeralNoNul(n: nat)
    ensures NUL !in Numeral(n)
  {
    forall c | c in Numeral(n) ensures IsDigit(c) {
    }
  }

  // ----- choosing -----

  /** User i has selected the given slot, if a named user is there, and is thrown out otherwise. */
  predicate Selects(ts: seq<Slot>, i: nat, slot: nat, o: Outcome)
    requires Table(ts) && i < |ts| && ts[i].Used?
  {
    if slot < 16 && Named(ts[slot])
    then && o.table == ts[i := ts[i].(target := To(ts[slot].conn))]
         && o.log == [Selected(ts[i].conn, ts[slot].conn)]
    else o.table == Remove(ts, i) && o.log == [Left(ts[i].conn)]
  }

  lemma AwaitingTurn(ts: seq<Slot>, i: nat, canWrite: bool, s: string)
    requires Table(ts) && i < |ts| && Named(ts[i]) && ts[i].target == Awaiting && NUL !in s && FitsBuffer(s)
    ensures Turn(ts, i, canWrite, Text(s + "\n")) == Choose(ts, i, Choice(s))
  {
    LineText(s);
  }

  lemma ChoosesValue(ts: seq<Slot>, i: nat, v: int, slot: nat)
    requires Table(ts) && i < |ts| && Named(ts[i]) && (if 0 <= v < 16 then slot == v else slot >= 16)
    ensures Selects(ts, i, slot, Choose(ts, i, Some(v)))
  {
  }

  lemma LowBits(v: int, n: int)
    requires Truncates(v, n)
    ensures if 0 <= v < 16 then n % 0x1_0000_0000 == v else n % 0x1_0000_0000 >= 16
  {
    assert n == v + 0x1_0000_0000 * ((n - v) / 0x1_0000_0000);
  }

  /** A user who is to choose and types the number n selects slot n. Only the low 32 bits of n
      count; numbers beyond the largest long select nobody. */
  lemma ChoosesByNumber(ts: seq<Slot>, i: nat, canWrite: bool, n: nat)
    requires Table(ts) && i < |ts| && Named(ts[i]) && ts[i].target == Awaiting && FitsBuffer(Numeral(n))
    ensures Selects(ts, i, if n <= 0x7FFF_FFFF_FFFF_FFFF then n % 0x1_0000_0000 else 16,
                    Turn(ts, i, canWrite, Text(Numeral(n) + "\n")))
  {
    NumeralNoNul(n);
    AwaitingTurn(ts, i, canWrite, Numeral(n));
    NumeralRead("", n);
    assert "" + Numeral(n) == Numeral(n);
    var v := WholeNumber(Numeral(n)).value;
    if n <= 0x7FFF_FFFF_FFFF_FFFF {
      LowBits(v, n);
    }
    ChoosesValue(ts, i, v, if n <= 0x7FFF_FFFF_FFFF_FFFF then n % 0x1_0000_0000 else 16);
  }

  /** So do those of a negative number, which below the smallest long reads as 0. */
  lemma ChoosesByNegative(ts: seq<Slot>, i: nat, canWrite: bool, n: nat)
    requires Table(ts) && i < |ts| && Named(ts[i]) && ts[i].target == Awaiting && FitsBuffer("-" + Numeral(n))
    ensures Selects(ts, i, if n <= 0x8000_0000_0000_0000 then (0 - n) % 0x1_0000_0000 else 0,
                    Turn(ts, i, canWrite, Text(("-" + Numeral(n)) + "\n")))
  {
    var s := "-" + Numeral(n);
    NumeralNoNul(n);
    assert forall c :: c in s ==> c == '-' || c in Numeral(n);
    AwaitingTurn(ts, i, canWrite, s);
    NegativeRead(n);
    var v := WholeNumber(s).value;
    if n <= 0x8000_0000_0000_0000 {
      LowBits(v, 0 - n);
    }
    ChoosesValue(ts, i, v, if n <= 0x8000_0000_0000_0000 then (0 - n) % 0x1_0000_0000 else 0);
  }

  /** So small numbers mean themselves. */
  lemma ChoosesSlot(ts: seq<Slot>, i: nat, canWrite: bool, n: nat)
    requires Table(ts) && i < |ts| && Named(ts[i]) && ts[i].target == Awaiting
    requires n <= INT_MAX && FitsBuffer(Numeral(n))
    ensures Selects(ts, i, n, Turn(ts, i, canWrite, Text(Numeral(n) + "\n")))
  {
    NumeralNoNul(n);
    AwaitingTurn(ts, i, canWrite, Numeral(n));
    NumeralValue(n);
    ChoosesValue(ts, i, n, n);
  }

  /** A text that is no number throws the user out, but an empty line selects slot 0. */
  lemma ChoosesByText(ts: seq<Slot>, i: nat, canWrite: bool, s: string)
    requires Table(ts) && i < |ts| && Named(ts[i]) && ts[i].target == Awaiting && NUL !in s && FitsBuffer(s)
    ensures var o := Turn(ts, i, canWrite, Text(s + "\n"));
            && (s == "" && Named(ts[0]) ==>
                  && o.table == ts[i := ts[i].(target := To(ts[0].conn))]
                  && o.log == [Selected(ts[i].conn, ts[0].conn)])
            && (s != "" && !(exists a: nat, b: nat :: Shape(s, a, b)) ==>
                  o.table == Remove(ts, i) && o.log == [Left(ts[i].conn)])
  {
    LineText(s);
    NumbersExactly(s);
  }

  // ----- the other lines -----

  /** The first line of a connection becomes its name. */
  lemma TakesName(ts: seq<Slot>, i: nat, canWrite: bool, s: string)
    requires Table(ts) && i < |ts| && ts[i].Used? && ts[i].name.None? && NUL !in s && FitsBuffer(s)
    ensures Turn(ts, i, canWrite, Text(s + "\n")) == Outcome(ts[i := ts[i].(name := Some(s))], [])
  {
    LineText(s);
  }

  /** A line of a user with a target is forwarded, whole, once the target is ready. */
  lemma Forwards(ts: seq<Slot>, i: nat, canWrite: bool, line: string)
    requires Table(ts) && i < |ts| && Named(ts[i]) && ts[i].target.To? && 1 <= |line| <= 255
    ensures Turn(ts, i, canWrite, Text(line))
              == Outcome(ts, if canWrite then [Sent(ts[i].conn, ts[i].target.conn, line)] else [])
  {
  }

  /** A user who closes the connection leaves, unless nothing is read from it now. */
  lemma Closes(ts: seq<Slot>, i: nat, canWrite: bool)
    requires Table(ts) && i < |ts| && ts[i].Used? && (ts[i].name.Some? && ts[i].target.To? ==> canWrite)
    requires ts[i].name.Some? ==> ts[i].target != NoTarget
    ensures Turn(ts, i, canWrite, Closed) == Outcome(Remove(ts, i), [Left(ts[i].conn)])
  {
  }

  /** Leaving frees the slot, and who was talking to that connection has to choose again. */
  lemma LeavingFrees(ts: seq<Slot>, i: nat)
    requires Consistent(ts) && i < |ts| && ts[i].Used?
    ensures var r := Prepare(Remove(ts, i));
            && r[i] == Free
            && forall k :: 0 <= k < |ts| && k != i && Named(ts[k]) ==>
                 r[k] == if ts[k].target == To(ts[i].conn) || ts[k].target == NoTarget
                         then ts[k].(target := Awaiting) else ts[k]
  {
  }

  lemma NewcomerNamed(ts: seq<Slot>, a: nat, name: string)
    requires Table(ts) && FirstFree(ts) < 16 && NUL !in name && FitsBuffer(name)
    ensures var k := FirstFree(ts);
            Turn(Accept(ts, a), k, false, Text(name + "\n")) == Outcome(ts[k := Used(a, Some(name), NoTarget)], [])
  {
    TakesName(Accept(ts, a), FirstFree(ts), false, name);
  }

  lemma SmallFits(n: nat)
    requires n < 16
    ensures FitsBuffer(Numeral(n))
  {
  }

  /** From the first line to the first message: a newcomer gives a name, chooses slot n and sends
      a line; it reaches the connection in slot n. */
  lemma Conversation(ts: seq<Slot>, a: nat, name: string, n: nat, line: string)
    requires Table(ts) && n < 16 && Named(ts[n]) && FirstFree(ts) < 16
    requires NUL !in name && FitsBuffer(name) && 1 <= |line| <= 255
    ensures FitsBuffer(Numeral(n))
    ensures var k := FirstFree(ts);
            var named := Turn(Accept(ts, a), k, false, Text(name + "\n"));
            var chosen := Turn(Prepare(named.table), k, false, Text(Numeral(n) + "\n"));
            var sent := Turn(chosen.table, k, true, Text(line));
            named.log + chosen.log + sent.log == [Selected(a, ts[n].conn), Sent(a, ts[n].conn, line)]
  {
    var k := FirstFree(ts);
    SmallFits(n);
    NewcomerNamed(ts, a, name);
    var t := Prepare(ts[k := Used(a, Some(name), NoTarget)]);
    assert t[k] == Used(a, Some(name), Awaiting) && Named(t[n]) && t[n].conn == ts[n].conn;
    ChoosesSlot(t, k, false, n);
    Forwards(t[k := Used(a, Some(name), To(ts[n].conn))], k, true, line);
  }

  // ----- a round -----

  /** Two events of the log do not write to the same connection. */
  predicate OnePerTarget(log: seq<Event>) {
    forall p, q :: 0 <= p < q < |log| && log[p].Sent? && log[q].Sent? ==> log[p].conn != log[q].conn
  }

  predicate OnlyTo(log: seq<Event>, writable: set<nat>) {
    forall p :: 0 <= p < |log| && log[p].Sent? ==> log[p].conn in writable
  }

  lemma TurnSends(ts: seq<Slot>, i: nat, writable: set<nat>, input: Input)
    requires Table(ts) && i < |ts| && Readable(input)
    ensures var log := Turn(ts, i, CanWrite(ts, i, writable), input).log;
            && |log| <= 1 && OnlyTo(log, writable)
            && (log != [] && log[0].Sent? ==> log[0].conn !in StillWritable(writable, log))
            && StillWritable(writable, log) <= writable
  {
  }

  /** In a round each connection is written to at most once, and only if it was ready. */
  lemma {:induction false} RoundWritesOnce(ts: seq<Slot>, i: nat, readable: seq<bool>, inputs: seq<Input>,
                                           writable: set<nat>)
    requires Table(ts) && i <= USERS == |readable| == |inputs|
    requires forall k :: 0 <= k < |inputs| ==> Readable(inputs[k])
    ensures var log := Round(ts, i, readable, inputs, writable).log; OnePerTarget(log) && OnlyTo(log, writable)
    decreases USERS - i
  {
    if i < USERS && readable[i] {
      var o := Turn(ts, i, CanWrite(ts, i, writable), inputs[i]);
      TurnSends(ts, i, writable, inputs[i]);
      RoundWritesOnce(o.table, i + 1, readable, inputs, StillWritable(writable, o.log));
    } else if i < USERS {
      RoundWritesOnce(ts, i + 1, readable, inputs, writable);
    }
  }

  lemma {:induction false} RoundSilent(ts: seq<Slot>, i: nat, readable: seq<bool>, inputs: seq<Input>,
                                       writable: set<nat>)
    requires Table(ts) && i <= USERS == |readable| == |inputs|
    requires forall k :: 0 <= k < |inputs| ==> Readable(inputs[k])
    requires forall k :: i <= k < USERS ==> !readable[k]
    ensures Round(ts, i, readable, inputs, writable) == Outcome(ts, [])
    decreases USERS - i
  {
    if i < USERS {
      RoundSilent(ts, i + 1, readable, inputs, writable);
    }
  }

  /** A round in which one connection is readable is that user's turn. */
  lemma {:induction false} RoundOfOne(ts: seq<Slot>, i: nat, k: nat, readable: seq<bool>, inputs: seq<Input>,
                                      writable: set<nat>)
    requires Table(ts) && i <= k < USERS == |readable| == |inputs|
    requires forall m :: 0 <= m < |inputs| ==> Readable(inputs[m])
    requires readable[k] && forall m :: i <= m < USERS && m != k ==> !readable[m]
    ensures Round(ts, i, readable, inputs, writable) == Turn(ts, k, CanWrite(ts, k, writable), inputs[k])
    decreases k - i
  {
    if i < k {
      RoundOfOne(ts, i + 1, k, readable, inputs, writable);
    } else {
      var o := Turn(ts, k, CanWrite(ts, k, writable), inputs[k]);
      RoundSilent(o.table, k + 1, readable, inputs, StillWritable(writable, o.log));
    }
  }
}
