/** appb/write-all.c: writing everything through a descriptor that may take only part of each write. */
module WriteAll {
  import opened Files

  /**
   * What one write(2) of `count` bytes does, for the next entry of a plan: a negative entry
   * fails, another one takes at most that many bytes, and after the plan writes are complete.
   */
  function Taken(plan: seq<int>, count: nat): int
  {
    if plan == [] then count else if plan[0] < 0 then -1 else Min(plan[0], count)
  }

  class Descriptor {
    var data: seq<byte>
    var plan: seq<int>

    constructor (data: seq<byte>, plan: seq<int>)
      ensures this.data == data && this.plan == plan
    {
      this.data, this.plan := data, plan;
    }

    method Write(bytes: seq<byte>) returns (taken: int)
      modifies this
      ensures taken == Taken(old(plan), |bytes|)
      ensures data == old(data) + if taken < 0 then [] else bytes[..taken]
      ensures plan == if old(plan) == [] then [] else old(plan)[1..]
    {
      taken := Taken(plan, |bytes|);
      if taken >= 0 {
        data := data + bytes[..taken];
      }
      plan := if plan == [] then [] else plan[1..];
    }
  }

  /** How many bytes get through in the whole loop. */
  function Transfer(plan: seq<int>, count: nat): (r: nat)
    ensures r <= count
    decreases |plan|, count
  {
    if count == 0 then 0
    else if plan == [] then count
    else if plan[0] < 0 then 0
    else Min(plan[0], count) + Transfer(plan[1..], count - Min(plan[0], count))
  }

  /** The bytes the plan accepts before its first failure. */
  function Accepted(plan: seq<int>): nat
  {
    if plan == [] || plan[0] < 0 then 0 else plan[0] + Accepted(plan[1..])
  }

  predicate Fails(plan: seq<int>) { exists k | 0 <= k < |plan| :: plan[k] < 0 }

  /** In closed form: everything, unless a failure comes before `count` bytes were accepted. */
  lemma {:induction false} TransferIs(plan: seq<int>, count: nat)
    ensures Transfer(plan, count) == if Fails(plan) then Min(Accepted(plan), count) else count
    decreases |plan|
  {
    if plan != [] && plan[0] >= 0 {
      TransferIs(plan[1..], count - Min(plan[0], count));
      if k :| 0 <= k < |plan| && plan[k] < 0 {
        assert plan[1..][k - 1] < 0;
      }
      if k :| 0 <= k < |plan[1..]| && plan[1..][k] < 0 {
        assert plan[k + 1] < 0;
      }
    }
  }

  /** A size_t returned as ssize_t. */
  function ToSsize(n: nat): int
    requires n < 0x1_0000_0000_0000_0000
  {
    if n < 0x8000_0000_0000_0000 then n else n - 0x1_0000_0000_0000_0000
  }

  lemma NextPart<T>(s: seq<T>, pos: nat, end: nat, n: nat)
    requires pos + n <= end <= |s|
    ensures s[..pos] + s[pos..end][..n] == s[..pos + n]
  {
    assert s[pos..end][..n] == s[pos..pos + n];
  }

  /**
   * Lines 13-30. A success is one atomic write of all `count` bytes; -1 leaves a proper prefix.
   * For counts an ssize_t can hold, the return value tells the two apart.
   */
  method WriteAllBytes(fd: Descriptor, buffer: seq<byte>, count: nat) returns (ret: int, ghost done: nat)
    requires count <= |buffer| && count < 0x1_0000_0000_0000_0000
    modifies fd
    ensures done == Transfer(old(fd.plan), count) && fd.data == old(fd.data) + buffer[..done]
    ensures done == if Fails(old(fd.plan)) then Min(Accepted(old(fd.plan)), count) else count
    ensures ret == if done == count then ToSsize(count) else -1
    ensures count < 0x8000_0000_0000_0000 ==> (ret == count <==> done == count) && (ret == -1 <==> done < count)
  {
    TransferIs(fd.plan, count);
    var leftToWrite := count;
    var pos := 0; // the buffer pointer's distance from its start
    done := 0;
    while leftToWrite > 0
      invariant 0 <= pos && 0 <= leftToWrite && pos + leftToWrite == count && done == pos
      invariant fd.data == old(fd.data) + buffer[..pos]
      invariant pos + Transfer(fd.plan, leftToWrite) == Transfer(old(fd.plan), count)
      decreases |fd.plan|, leftToWrite
    {
      var written := fd.Write(buffer[pos..count]);
      if written == -1 {
        ret := -1;
        return;
      }
      NextPart(buffer, pos, count, written);
      leftToWrite := leftToWrite - written;
      pos := pos + written;
      done := pos;
    }
    ret := ToSsize(count);
  }
}
