/** The linked lists of job handles of lsh, edited in place. */
module JobLists {
  /** A job as the shell stores it; `unreaped` is the kernel's count of the processes of group
      pgid that no waitpid has reported ended, and `id` the order of launch. */
  class JobRecord {
    ghost const id: nat
    const pgid: int
    var size: int
    var unreaped: int
    var fg: bool
    var stopped: bool
    var fallingApart: bool

    constructor (ghost id: nat, pgid: int, size: int, fg: bool)
      ensures this.id == id && this.pgid == pgid && this.size == size && unreaped == size
      ensures this.fg == fg && !stopped && !fallingApart
    {
      this.id, this.pgid, this.size, this.unreaped := id, pgid, size, size;
      this.fg, this.stopped, this.fallingApart := fg, false, false;
    }
  }

  /** `owner` is the list the handle is linked into. */
  class Handle {
    const job: JobRecord
    var next: Handle?
    ghost var owner: HandleList?

    /** `make_job_handle` */
    constructor (job: JobRecord)
      ensures this.job == job && next == null && owner == null
    {
      this.job, this.next, this.owner := job, null, null;
    }
  }

  function Matches(h: Handle, pid: int): bool { h.job.pgid == pid || pid <= 0 }

  /** The position of the first handle that pid selects, or the length. */
  function First(hs: seq<Handle>, pid: int): (k: nat)
    ensures k <= |hs|
    ensures forall i :: 0 <= i < k ==> !Matches(hs[i], pid)
    ensures k < |hs| ==> Matches(hs[k], pid)
  {
    if hs == [] || Matches(hs[0], pid) then 0 else 1 + First(hs[1..], pid)
  }

  lemma FirstIs(hs: seq<Handle>, pid: int, k: nat)
    requires k <= |hs| && (forall i :: 0 <= i < k ==> !Matches(hs[i], pid)) && (k < |hs| ==> Matches(hs[k], pid))
    ensures First(hs, pid) == k
  {
  }

  ghost predicate Distinct(hs: seq<Handle>) {
    forall i, k :: 0 <= i < k < |hs| ==> hs[i] != hs[k]
  }

  ghost predicate Linked(hs: seq<Handle>)
    reads hs
  {
    forall i, k :: 0 <= i && k == i + 1 < |hs| ==> hs[i].next == hs[k]
  }

  function Drop(hs: seq<Handle>, k: nat): (r: seq<Handle>)
    requires k < |hs|
    ensures |r| == |hs| - 1 && forall i :: 0 <= i < |r| ==> r[i] == if i < k then hs[i] else hs[i + 1]
  {
    hs[..k] + hs[k + 1..]
  }

  lemma DropDistinct(hs: seq<Handle>, k: nat)
    requires Distinct(hs) && k < |hs|
    ensures Distinct(Drop(hs, k)) && hs[k] !in Drop(hs, k)
  {
  }

  /** A list variable such as `current_job`: the head pointer. `nodes` are its handles. */
  class HandleList {
    var head: Handle?
    ghost var nodes: seq<Handle>

    constructor ()
      ensures Valid() && nodes == []
    {
      head, nodes := null, [];
    }

    /** The links run through the nodes, each once, and end: the list is acyclic. */
    ghost predicate Valid()
      reads this, nodes
    {
      && Distinct(nodes) && Linked(nodes)
      && (forall i :: 0 <= i < |nodes| ==> nodes[i].owner == this)
      && (if nodes == [] then head == null else head == nodes[0] && nodes[|nodes| - 1].next == null)
    }

    /** `remove_job_handle`: unlink the first handle with that pgid, or the first of all for a
        pid that is not positive. */
    method Remove(pid: int) returns (h: Handle?)
      requires Valid()
      modifies this, nodes
      ensures Valid()
      ensures var k := First(old(nodes), pid);
              if k == |old(nodes)|
              then h == null && nodes == old(nodes) && unchanged(this) && unchanged(set n | n in old(nodes))
              else h == old(nodes)[k] && h.next == null && h.owner == null && nodes == Drop(old(nodes), k)
    {
      ghost var k := 0;
      var before: Handle? := null;
      h := head;
      while h != null && !(h.job.pgid == pid || pid <= 0)
        invariant 0 <= k <= |nodes| && h == if k < |nodes| then nodes[k] else null
        invariant before == if k == 0 then null else nodes[k - 1]
        invariant forall i :: 0 <= i < k ==> !Matches(nodes[i], pid)
        decreases |nodes| - k
      {
        before, h, k := h, h.next, k + 1;
      }
      FirstIs(nodes, pid, k);
      if h != null {
        Unlink(before, h, k);
      }
    }

    /** Removing with pid 0 takes the first handle. */
    method Shift() returns (h: Handle?)
      requires Valid()
      modifies this, nodes
      ensures Valid()
      ensures if old(nodes) == [] then h == null && nodes == [] else h == old(nodes)[0] && nodes == old(nodes)[1..]
    {
      h := Remove(0);
    }

    /** Make the link that points to h point behind it. */
    method Unlink(before: Handle?, h: Handle, ghost k: nat)
      requires Valid() && k < |nodes| && h == nodes[k]
      requires before == if k == 0 then null else nodes[k - 1]
      modifies this, nodes
      ensures Valid() && h.next == null && h.owner == null && nodes == Drop(old(nodes), k)
    {
      if before == null {
        head := h.next;
      } else {
        before.next := h.next;
      }
      h.next := null;
      h.owner := null;
      DropDistinct(nodes, k);
      nodes := Drop(nodes, k);
    }

    /** `job_handle_add_last` */
    method AddLast(h: Handle)
      requires Valid() && h.next == null && h.owner == null
      modifies this, nodes, h`owner
      ensures Valid() && nodes == old(nodes) + [h] && h.next == null
    {
      if head == null {
        head := h;
      } else {
        var last: Handle := head;
        ghost var k := 0;
        while last.next != null
          invariant 0 <= k < |nodes| && last == nodes[k]
          invariant if k + 1 < |nodes| then last.next == nodes[k + 1] else last.next == null
          decreases |nodes| - k
        {
          last, k := last.next, k + 1;
        }
        assert k == |nodes| - 1;
        last.next := h;
      }
      h.owner := this;
      nodes := nodes + [h];
    }

    /** `job_handle_add_first` */
    method AddFirst(h: Handle)
      requires Valid() && h.next == null && h.owner == null
      modifies this, h
      ensures Valid() && nodes == [h] + old(nodes)
    {
      if head == null {
        head := h;
      } else {
        h.next := head;
        head := h;
      }
      h.owner := this;
      nodes := [h] + nodes;
    }
  }
}
