/** What the modules share of the RT-Thread kernel: thread names, error codes, timeouts and wait lists. */
module Kernel {
  import opened Common

  type ThreadId = nat

  datatype Error = EOK | ETIMEOUT | ERROR

  /** The `timeout` argument: zero, positive or negative. */
  datatype Wait = NoWait | Timed | Forever

  /** `rt_list_remove` of one thread. */
  function Without(s: seq<ThreadId>, t: ThreadId): (r: seq<ThreadId>) {
    if s == [] then [] else if s[0] == t then s[1..] else [s[0]] + Without(s[1..], t)
  }

  lemma {:induction false} WithoutIs(s: seq<ThreadId>, t: ThreadId)
    requires DupFree(s)
    ensures DupFree(Without(s, t))
    ensures forall u :: u in Without(s, t) <==> u in s && u != t
  {
    if s != [] {
      assert forall u :: u in s <==> u == s[0] || u in s[1..];
      assert s[0] !in s[1..];
      if s[0] != t {
        WithoutIs(s[1..], t);
      }
    }
  }

  /** Only the named thread leaves the list; the others keep their order. */
  lemma {:induction false} WithoutKeepsOrder(s: seq<ThreadId>, t: ThreadId) returns (i: nat)
    ensures t !in s ==> Without(s, t) == s
    ensures t in s ==> i < |s| && s[i] == t && t !in s[..i] && Without(s, t) == s[..i] + s[i + 1..]
  {
    i := 0;
    if s != [] && s[0] != t {
      var first, rest := s[0], s[1..];
      assert s == [first] + rest;
      i := WithoutKeepsOrder(rest, t);
      if t in rest {
        assert ([first] + rest)[..i + 1] == [first] + rest[..i];
        assert ([first] + rest)[i + 2..] == rest[i + 1..];
        assert [first] + (rest[..i] + rest[i + 1..]) == ([first] + rest[..i]) + rest[i + 1..];
        i := i + 1;
      }
    }
  }
}
