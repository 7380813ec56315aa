/** The debug text bucket (debug.c). */
module LogBucket {
  import opened CStrings

  const SIZE: nat := 4096

  /** Whether a message still fits behind what is already there. */
  predicate Fits(used: nat, len: nat) { len + 1 < SIZE - used }

  method MemCpy(a: array<char>, at: nat, src: string)
    requires at + |src| <= a.Length
    modifies a
    ensures a[..] == old(a[..at]) + src + old(a[at + |src|..])
  {
    for i := 0 to |src|
      invariant forall k | 0 <= k < i :: a[at + k] == src[k]
      invariant forall k | 0 <= k < a.Length && !(at <= k < at + i) :: a[k] == old(a[k])
    {
      a[at + i] := src[i];
    }
    forall k | at <= k < at + |src|
      ensures a[k] == src[k - at]
    {
      assert a[at + (k - at)] == src[k - at];
    }
  }

  /** Copying a terminated string over the terminator of another appends it. */
  lemma Appended(before: seq<char>, after: seq<char>, used: nat, str: string)
    requires '\0' in before && used == Length(before) && '\0' !in str
    requires used + |str| + 1 <= |before|
    requires after == before[..used] + (str + ['\0']) + before[used + |str| + 1..]
    ensures '\0' in after && Text(after) == Text(before) + str
  {
    var n := used + |str|;
    assert after[..n] == before[..used] + str;
    assert after[n] == '\0';
    forall i | 0 <= i < n
      ensures after[i] != '\0'
    {
      assert after[i] == (before[..used] + str)[i];
      if i >= used {
        assert str[i - used] in str;
      }
    }
    LengthUnique(after, n);
  }

  class Bucket {
    const data: array<char>

    ghost predicate Valid()
      reads this, data
    {
      data.Length == SIZE && '\0' in data[..]
    }

    ghost function Contents(): string
      reads this, data
      requires Valid()
    {
      Text(data[..])
    }

    constructor ()
      ensures Valid() && fresh(data) && Contents() == ""
    {
      data := new char[SIZE](_ => '\0');
      new;
      assert data[0] == '\0';
      LengthUnique(data[..], 0);
    }

    /** A message goes in whole or not at all. */
    method Print(str: string)
      requires Valid() && '\0' !in str
      modifies data
      ensures Valid()
      ensures Contents() == (if Fits(|old(Contents())|, |str|) then old(Contents()) + str else old(Contents()))
    {
      var used := StrLen(data);
      if |str| + 1 < data.Length - used {
        MemCpy(data, used, str + ['\0']);
        Appended(old(data[..]), data[..], used, str);
      }
    }

    /** Hands out the text and leaves the bucket empty. */
    method Drain() returns (ret: string)
      requires Valid()
      modifies data
      ensures Valid() && Contents() == "" && ret == old(Contents())
    {
      var used := StrLen(data);
      ret := data[..used];
      assert ret == Text(data[..]);
      data[0] := '\0';
      LengthUnique(data[..], 0);
    }
  }

  // ----- Every sequence of prints and drains

  datatype Op = Print(msg: string) | Drain

  datatype Log = Log(drained: string, bucket: string)

  function Run(l: Log, ops: seq<Op>): Log
    decreases |ops|
  {
    if ops == [] then l
    else
      match ops[0]
      case Print(msg) => Run(if Fits(|l.bucket|, |msg|) then l.(bucket := l.bucket + msg) else l, ops[1..])
      case Drain => Run(Log(l.drained + l.bucket, ""), ops[1..])
  }

  /** A bucket taken through the operations goes through the states of `Run`. */
  method Execute(b: Bucket, ops: seq<Op>) returns (drained: string)
    requires b.Valid() && forall op | op in ops && op.Print? :: '\0' !in op.msg
    modifies b.data
    ensures b.Valid() && Log(drained, b.Contents()) == Run(Log("", old(b.Contents())), ops)
  {
    drained := "";
    for i := 0 to |ops|
      invariant b.Valid()
      invariant Run(Log(drained, b.Contents()), ops[i..]) == Run(Log("", old(b.Contents())), ops)
    {
      assert ops[i..][0] == ops[i] && ops[i..][1..] == ops[i + 1..];
      match ops[i]
      case Print(msg) =>
        assert ops[i] in ops;
        b.Print(msg);
      case Drain =>
        var text := b.Drain();
        drained := drained + text;
    }
  }

  /** The messages that found room, given how full the bucket was when they came. */
  function Accepted(ops: seq<Op>, used: nat): seq<string>
    decreases |ops|
  {
    if ops == [] then []
    else
      match ops[0]
      case Print(msg) =>
        if used + |msg| < 4095 then [msg] + Accepted(ops[1..], used + |msg|) else Accepted(ops[1..], used)
      case Drain => Accepted(ops[1..], 0)
  }

  function Concat(ms: seq<string>): string { if ms == [] then "" else ms[0] + Concat(ms[1..]) }

  /** Nothing is lost, doubled or reordered. */
  lemma {:induction false} TextConserved(l: Log, ops: seq<Op>)
    requires |l.bucket| < SIZE - 1
    ensures var r := Run(l, ops);
            && r.drained + r.bucket == l.drained + l.bucket + Concat(Accepted(ops, |l.bucket|))
            && |r.bucket| < SIZE - 1
    decreases |ops|
  {
    if ops == [] {
    } else {
      match ops[0]
      case Print(msg) =>
        if Fits(|l.bucket|, |msg|) {
          var l' := l.(bucket := l.bucket + msg);
          TextConserved(l', ops[1..]);
          var tail := Accepted(ops[1..], |l'.bucket|);
          assert ([msg] + tail)[1..] == tail;
          assert l.drained + (l.bucket + msg) + Concat(tail) == l.drained + l.bucket + (msg + Concat(tail));
        } else {
          TextConserved(l, ops[1..]);
        }
      case Drain =>
        TextConserved(Log(l.drained + l.bucket, ""), ops[1..]);
    }
  }

  /** Over every sequence of operations, drained text and bucket are the accepted messages in order. */
  lemma LogIsAcceptedMessages(ops: seq<Op>)
    ensures var r := Run(Log("", ""), ops);
            r.drained + r.bucket == Concat(Accepted(ops, 0)) && |r.bucket| <= 4094
  {
    TextConserved(Log("", ""), ops);
  }
}
