/** The minitalk server's table of 16 users, which holds descriptor numbers. */
module TalkServer {
  import opened Options
  import opened Talk

  const UNASSIGNED := 0
  const AWAITING := -1

  datatype User = User(fd: nat, name: Option<string>, to: int)

  // ----- the table as a value -----

  /** `open` maps each open descriptor to its connection. */
  predicate Users(us: seq<User>, open: map<nat, nat>) {
    && |us| == USERS
    && (forall i :: 0 <= i < |us| && us[i].fd != 0 ==> us[i].fd in open)
    && (forall i, k :: 0 <= i < k < |us| && us[i].fd == us[k].fd ==> us[i].fd == 0)
    && (forall i :: 0 <= i < |us| ==> UserOk(us, i))
  }

  /** A free slot is blank, an unnamed user has no target, and a target is a named user's
      descriptor. */
  predicate UserOk(us: seq<User>, i: nat)
    requires i < |us|
  {
    && us[i].to >= AWAITING
    && (us[i].fd == 0 ==> us[i].name.None?)
    && (us[i].name.None? ==> us[i].to == UNASSIGNED)
    && (us[i].to > 0 ==> NamedFd(us, us[i].to))
  }

  predicate NamedFd(us: seq<User>, fd: int) {
    exists k :: 0 <= k < |us| && us[k].fd == fd && us[k].name.Some?
  }

  predicate Injective(open: map<nat, nat>) {
    forall f, g :: f in open && g in open && open[f] == open[g] ==> f == g
  }

  /** A target's descriptor is open, as it is a user's. */
  function TargetOf(to: int, open: map<nat, nat>): Target {
    if to == UNASSIGNED then NoTarget else if to > 0 && to as nat in open then To(open[to]) else Awaiting
  }

  function SlotOf(u: User, open: map<nat, nat>): Slot {
    if u.fd in open && u.fd != 0 then Used(open[u.fd], u.name, TargetOf(u.to, open)) else Free
  }

  /** The table in terms of connections. */
  function View(us: seq<User>, open: map<nat, nat>): (r: seq<Slot>)
    ensures |r| == |us| && forall i :: 0 <= i < |us| ==> r[i] == SlotOf(us[i], open)
  {
    seq(|us|, i requires 0 <= i < |us| => SlotOf(us[i], open))
  }

  function FirstUnassigned(us: seq<User>): (k: nat)
    ensures k <= |us| && (forall i :: 0 <= i < k ==> us[i].fd != 0) && (k < |us| ==> us[k].fd == 0)
  {
    if us == [] || us[0].fd == 0 then 0 else 1 + FirstUnassigned(us[1..])
  }

  lemma FirstIs(ts: seq<Slot>, k: nat)
    requires k <= |ts| && (forall i :: 0 <= i < k ==> ts[i] != Free) && (k < |ts| ==> ts[k] == Free)
    ensures FirstFree(ts) == k
  {
  }

  function Placed(us: seq<User>, k: nat, fd: nat): (r: seq<User>)
    ensures |r| == |us|
  {
    if k < |us| then us[k := us[k].(fd := fd)] else us
  }

  lemma AcceptUsers(us: seq<User>, open: map<nat, nat>, k: nat, fd: nat, conn: nat)
    requires Users(us, open) && fd != 0 && fd !in open && (k < |us| ==> us[k].fd == 0)
    ensures Users(Placed(us, k, fd), open[fd := conn])
  {
    var us' := Placed(us, k, fd);
    forall i | 0 <= i < |us| ensures UserOk(us', i) {
      assert UserOk(us, i);
      if us[i].to > 0 {
        var n :| 0 <= n < |us| && us[n].fd == us[i].to && us[n].name.Some?;
        assert UserOk(us, n);
        assert us'[n] == us[n];
      }
    }
  }

  lemma AcceptView(us: seq<User>, open: map<nat, nat>, k: nat, fd: nat, conn: nat)
    requires Users(us, open) && fd != 0 && fd !in open
    requires k <= |us| && (forall i :: 0 <= i < k ==> us[i].fd != 0) && (k < |us| ==> us[k].fd == 0)
    ensures View(Placed(us, k, fd), open[fd := conn]) == Accept(View(us, open), conn)
  {
    FirstIs(View(us, open), k);
    forall i | 0 <= i < |us| ensures SlotOf(Placed(us, k, fd)[i], open[fd := conn]) == Accept(View(us, open), conn)[i] {
      assert UserOk(us, i);
      if us[i].to > 0 {
        var n :| 0 <= n < |us| && us[n].fd == us[i].to && us[n].name.Some?;
        assert us[n].fd in open;
      }
    }
  }

  /** A new descriptor disturbs nobody's target, even if its number was used before. */
  lemma AcceptOk(us: seq<User>, open: map<nat, nat>, k: nat, fd: nat, conn: nat)
    requires Users(us, open) && fd != 0 && fd !in open
    requires k <= |us| && (forall i :: 0 <= i < k ==> us[i].fd != 0) && (k < |us| ==> us[k].fd == 0)
    ensures var us' := Placed(us, k, fd);
            Users(us', open[fd := conn]) && View(us', open[fd := conn]) == Accept(View(us, open), conn)
  {
    AcceptUsers(us, open, k, fd, conn);
    AcceptView(us, open, k, fd, conn);
  }

  function Cleared(u: User, fd: nat): User { if u.to == fd then u.(to := UNASSIGNED) else u }

  function Removed(us: seq<User>, i: nat): (r: seq<User>)
    requires i < |us|
    ensures |r| == |us|
  {
    seq(|us|, k requires 0 <= k < |us| => if k == i then User(0, None, UNASSIGNED) else Cleared(us[k], us[i].fd))
  }

  /** Closing a descriptor together with every reference to it. */
  lemma RemoveOk(us: seq<User>, open: map<nat, nat>, i: nat)
    requires Users(us, open) && i < |us| && us[i].fd != 0
    ensures Users(Removed(us, i), open - {us[i].fd})
  {
    var r := Removed(us, i);
    forall k | 0 <= k < |us| ensures UserOk(r, k) {
      assert UserOk(us, k);
      if r[k].to > 0 {
        var n :| 0 <= n < |us| && us[n].fd == us[k].to && us[n].name.Some?;
        assert r[n].fd == us[n].fd && r[n].name == us[n].name;
      }
    }
  }

  lemma RemoveView(us: seq<User>, open: map<nat, nat>, i: nat)
    requires Users(us, open) && Injective(open) && i < |us| && us[i].fd != 0
    ensures View(Removed(us, i), open - {us[i].fd}) == Remove(View(us, open), i)
  {
    var r, open', ts := Removed(us, i), open - {us[i].fd}, View(us, open);
    forall k | 0 <= k < |us| ensures SlotOf(r[k], open') == Remove(ts, i)[k] {
      assert UserOk(us, k);
      if us[k].to > 0 {
        var n :| 0 <= n < |us| && us[n].fd == us[k].to && us[n].name.Some?;
        assert us[n].fd in open;
      }
    }
  }

  lemma NameOk(us: seq<User>, open: map<nat, nat>, i: nat, name: string)
    requires Users(us, open) && i < |us| && us[i].fd != 0
    ensures var us' := us[i := us[i].(name := Some(name))];
            Users(us', open) && View(us', open) == View(us, open)[i := SlotOf(us[i], open).(name := Some(name))]
  {
    var us' := us[i := us[i].(name := Some(name))];
    forall k | 0 <= k < |us| ensures UserOk(us', k) {
      assert UserOk(us, k);
      if us[k].to > 0 {
        var n :| 0 <= n < |us| && us[n].fd == us[k].to && us[n].name.Some?;
        assert us'[n].fd == us[n].fd && us'[n].name.Some?;
      }
    }
  }

  lemma SelectOk(us: seq<User>, open: map<nat, nat>, i: nat, n: nat)
    requires Users(us, open) && i < |us| && n < |us| && us[i].fd != 0 && us[i].name.Some?
    requires us[n].fd != 0 && us[n].name.Some?
    ensures var us' := us[i := us[i].(to := us[n].fd)];
            && Users(us', open)
            && View(us', open) == View(us, open)[i := SlotOf(us[i], open).(target := To(open[us[n].fd]))]
  {
    var us' := us[i := us[i].(to := us[n].fd)];
    forall k | 0 <= k < |us| ensures UserOk(us', k) {
      assert UserOk(us, k);
      var f := us'[k].to;
      if f > 0 {
        var m :| 0 <= m < |us| && us[m].fd == f && us[m].name.Some?;
        assert us'[m].fd == us[m].fd && us'[m].name.Some?;
      }
    }
  }

  function Prepared(u: User): User {
    if u.fd != 0 && u.name.Some? && u.to <= 0 && u.to != AWAITING then u.(to := AWAITING) else u
  }

  lemma PrepareOk(us: seq<User>, us': seq<User>, open: map<nat, nat>)
    requires Users(us, open) && |us'| == |us| && forall k :: 0 <= k < |us| ==> us'[k] == Prepared(us[k])
    ensures Users(us', open) && View(us', open) == Prepare(View(us, open))
  {
    forall k | 0 <= k < |us| ensures UserOk(us', k) && SlotOf(us'[k], open) == Prepare(View(us, open))[k] {
      assert UserOk(us, k);
      if us[k].to > 0 {
        var n :| 0 <= n < |us| && us[n].fd == us[k].to && us[n].name.Some?;
        assert us'[n].fd == us[n].fd && us'[n].name.Some?;
        assert us[n].fd in open;
      }
    }
  }

  ghost predicate Fewer(open: map<nat, nat>, was: map<nat, nat>) {
    forall f :: f in open ==> f in was && open[f] == was[f]
  }

  /** The ready descriptors are those of the ready connections. */
  ghost predicate SameReady(open: map<nat, nat>, fds: set<nat>, conns: set<nat>) {
    forall f :: f in open ==> (f in fds <==> open[f] in conns)
  }

  lemma ReadyWithout(open: map<nat, nat>, fds: set<nat>, conns: set<nat>, f: nat)
    requires Injective(open) && SameReady(open, fds, conns) && f in open
    ensures SameReady(open, fds - {f}, conns - {open[f]})
  {
  }

  lemma CanWriteIs(us: seq<User>, open: map<nat, nat>, i: nat, fds: set<nat>, conns: set<nat>)
    requires Users(us, open) && SameReady(open, fds, conns) && i < |us|
    ensures CanWrite(View(us, open), i, conns) <==> us[i].to > 0 && us[i].to as nat in fds
  {
    assert UserOk(us, i);
    if us[i].to > 0 {
      var n :| 0 <= n < |us| && us[n].fd == us[i].to && us[n].name.Some?;
      assert us[n].fd in open;
    }
  }

  // ----- the server -----

  class Server {
    const users: array<User>
    ghost var open: map<nat, nat>

    constructor ()
      ensures Valid() && Slots() == Start().table
    {
      users := new User[USERS](_ => User(0, None, UNASSIGNED));
      open := map[];
      new;
      assert forall i :: 0 <= i < USERS ==> UserOk(users[..], i);
      assert View(users[..], open) == Start().table;
    }

    ghost predicate Valid()
      reads this, users
    {
      Users(users[..], open) && Injective(open)
    }

    ghost function Slots(): seq<Slot>
      reads this, users
    {
      View(users[..], open)
    }

    /** Only slot i may have lost its descriptor. */
    ghost predicate SameFds(i: nat, was: seq<User>)
      reads users
    {
      |was| == users.Length && forall k :: 0 <= k < |was| && k != i ==> users[k].fd == was[k].fd
    }

    /** `accept`: the system picks any descriptor that is not open, in particular one that was
        used before. */
    method AcceptUser(peer: nat, ghost conn: nat)
      requires Valid() && peer != 0 && peer !in open && forall f :: f in open ==> open[f] != conn
      modifies this, users
      ensures Valid() && Slots() == Accept(old(Slots()), conn)
    {
      var i := 0;
      while i < USERS && users[i].fd != UNASSIGNED
        invariant i <= USERS && users[..] == old(users[..])
        invariant forall k :: 0 <= k < i ==> users[k].fd != 0
      {
        i := i + 1;
      }
      AcceptOk(users[..], open, i, peer, conn);
      if i < USERS {
        users[i] := users[i].(fd := peer);
      }
      open := open[peer := conn];
    }

    /** The pass before select. */
    method PrepareUsers()
      requires Valid()
      modifies users
      ensures Valid() && Slots() == Prepare(old(Slots()))
    {
      var i := 0;
      while i < USERS
        invariant i <= USERS
        invariant forall k :: 0 <= k < USERS ==> users[k] == if k < i then Prepared(old(users[k])) else old(users[k])
      {
        if users[i].fd != 0 && users[i].name.Some? {
          if users[i].to <= 0 && users[i].to != AWAITING {
            users[i] := users[i].(to := AWAITING);
          }
        }
        i := i + 1;
      }
      PrepareOk(old(users[..]), users[..], open);
    }

    /** `remove_user` */
    method RemoveUser(i: nat)
      requires Valid() && i < USERS && users[i].fd != 0
      modifies this, users
      ensures Valid() && Slots() == Remove(old(Slots()), i) && open == old(open - {users[i].fd})
      ensures SameFds(i, old(users[..]))
    {
      RemoveOk(users[..], open, i);
      RemoveView(users[..], open, i);
      open := open - {users[i].fd};
      ClearUser(i);
    }

    /** The table's part of `remove_user`. */
    method ClearUser(i: nat)
      requires users.Length == USERS && i < USERS
      modifies users
      ensures users[..] == Removed(old(users[..]), i)
    {
      var k, fd := 0, users[i].fd;
      while k < USERS
        invariant k <= USERS && users[i].fd == fd
        invariant forall n :: 0 <= n < USERS ==> users[n] == if n < k then Cleared(old(users[n]), fd) else old(users[n])
      {
        if users[k].to == users[i].fd {
          users[k] := users[k].(to := UNASSIGNED);
        }
        k := k + 1;
      }
      users[i] := User(0, None, UNASSIGNED);
    }

    /** One user's turn; `writable` are the descriptors ready for output. */
    method TakeTurn(i: nat, input: Input, writable: set<nat>) returns (writable': set<nat>, ghost log: seq<Event>)
      requires Valid() && i < USERS && Readable(input)
      modifies this, users
      ensures Valid() && Fewer(open, old(open)) && SameFds(i, old(users[..]))
      ensures var s := old(Slots());
              Outcome(Slots(), log) == Turn(s, i, old(users[i].to > 0 && users[i].to as nat in writable), input)
      ensures var to := old(users[i].to);
              if |log| == 1 && log[0].Sent?
              then to > 0 && to in open && log[0].conn == open[to] && writable' == writable - {to}
              else writable' == writable
    {
      writable', log := writable, [];
      var u := users[i];
      assert UserOk(users[..], i);
      if u.fd == 0 {
        return;
      }
      if u.name.None? {
        if input.Closed? {
          log := [Left(open[u.fd])];
          RemoveUser(i);
        } else {
          NameOk(users[..], open, i, Chopped(input.line));
          users[i] := u.(name := Some(Chopped(input.line)));
        }
      } else if u.to == AWAITING {
        if input.Closed? {
          log := [Left(open[u.fd])];
          RemoveUser(i);
        } else {
          log := SelectUser(i, Chopped(input.line));
        }
      } else if u.to > 0 {
        if u.to in writable {
          if input.Closed? {
            log := [Left(open[u.fd])];
            RemoveUser(i);
          } else {
            log := [Sent(open[u.fd], open[u.to], input.line)];
            writable' := writable - {u.to};
          }
        }
      }
    }

    method SelectUser(i: nat, line: string) returns (ghost log: seq<Event>)
      requires Valid() && i < USERS && users[i].fd != 0 && users[i].name.Some?
      modifies this, users
      ensures Valid() && Fewer(open, old(open)) && SameFds(i, old(users[..])) && (|log| == 1 && !log[0].Sent?)
      ensures Outcome(Slots(), log) == Choose(old(Slots()), i, Choice(line))
    {
      log := [Left(open[users[i].fd])];
      var choice := Choice(line);
      if choice.None? || choice.value < 0 || choice.value >= USERS {
        RemoveUser(i);
      } else {
        var target := users[choice.value];
        if target.fd == 0 || target.name.None? {
          RemoveUser(i);
        } else {
          SelectOk(users[..], open, i, choice.value);
          log := [Selected(open[users[i].fd], open[target.fd])];
          users[i] := users[i].(to := target.fd);
        }
      }
    }

    /** A turn, with the ready descriptors and the ready connections side by side. */
    method TurnReady(i: nat, input: Input, writable: set<nat>, ghost conns: set<nat>)
      returns (writable': set<nat>, ghost log: seq<Event>, ghost conns': set<nat>)
      requires Valid() && i < USERS && Readable(input) && SameReady(open, writable, conns)
      modifies this, users
      ensures Valid() && SameFds(i, old(users[..])) && SameReady(open, writable', conns')
      ensures Outcome(Slots(), log) == Turn(old(Slots()), i, CanWrite(old(Slots()), i, conns), input)
      ensures conns' == StillWritable(conns, log)
    {
      CanWriteIs(users[..], open, i, writable, conns);
      ghost var to := users[i].to;
      writable', log := TakeTurn(i, input, writable);
      conns' := StillWritable(conns, log);
      if |log| == 1 && log[0].Sent? {
        ReadyWithout(open, writable, conns, to);
      }
    }

    /** The turns of one round, with the descriptors select found ready. */
    method TakeTurns(readable: set<nat>, writable: set<nat>, inputs: seq<Input>, ghost conns: set<nat>)
      returns (ghost log: seq<Event>)
      requires Valid() && SameReady(open, writable, conns) && |inputs| == USERS
      requires forall k :: 0 <= k < |inputs| ==> Readable(inputs[k])
      modifies this, users
      ensures Valid()
      ensures Outcome(Slots(), log) == Round(old(Slots()), 0, ReadySlots(old(users[..]), readable), inputs, conns)
    {
      var i, ready := 0, writable;
      log := [];
      ghost var rs, left := ReadySlots(users[..], readable), conns;
      ghost var all := Round(Slots(), 0, rs, inputs, conns);
      ghost var rest := all;
      while i < USERS
        invariant i <= USERS && Valid() && SameReady(open, ready, left)
        invariant forall k :: i <= k < USERS ==> rs[k] == (users[k].fd != 0 && users[k].fd in readable)
        invariant rest == Round(Slots(), i, rs, inputs, left) && all == After(log, rest)
      {
        ghost var was, before := Slots(), left;
        if users[i].fd != 0 && users[i].fd in readable {
          ghost var more;
          ready, more, left := TurnReady(i, inputs[i], ready, left);
          RoundTurn(log, was, i, rs, inputs, before);
          log := log + more;
        } else {
          RoundSkip(was, i, rs, inputs, before);
        }
        i := i + 1;
        rest := Round(Slots(), i, rs, inputs, left);
      }
    }
  }

  function After(log: seq<Event>, rest: Outcome): Outcome { Outcome(rest.table, log + rest.log) }

  lemma RoundSkip(ts: seq<Slot>, i: nat, readable: seq<bool>, inputs: seq<Input>, writable: set<nat>)
    requires Table(ts) && i < USERS == |readable| == |inputs| && !readable[i]
    requires forall k :: 0 <= k < |inputs| ==> Readable(inputs[k])
    ensures Round(ts, i, readable, inputs, writable) == Round(ts, i + 1, readable, inputs, writable)
  {
  }

  lemma RoundTurn(log: seq<Event>, ts: seq<Slot>, i: nat, readable: seq<bool>, inputs: seq<Input>, writable: set<nat>)
    requires Table(ts) && i < USERS == |readable| == |inputs| && readable[i]
    requires forall k :: 0 <= k < |inputs| ==> Readable(inputs[k])
    ensures var o := Turn(ts, i, CanWrite(ts, i, writable), inputs[i]);
            Table(o.table) &&
            After(log, Round(ts, i, readable, inputs, writable))
              == After(log + o.log, Round(o.table, i + 1, readable, inputs, StillWritable(writable, o.log)))
  {
    var o := Turn(ts, i, CanWrite(ts, i, writable), inputs[i]);
    var rest := Round(o.table, i + 1, readable, inputs, StillWritable(writable, o.log));
    assert log + (o.log + rest.log) == (log + o.log) + rest.log;
  }

  function ReadySlots(us: seq<User>, readable: set<nat>): (r: seq<bool>)
    ensures |r| == |us|
  {
    seq(|us|, k requires 0 <= k < |us| => us[k].fd != 0 && us[k].fd in readable)
  }
}
