/** Persistent identifiers.  A factory instance is named `factory~instance`; everything before
    the first `~` names the factory. */
module Pids {

  /** Position of the first `~`, or the length of the text when there is none. */
  function FirstTilde(pid: string): (pos: nat)
    ensures pos <= |pid|
    ensures '~' !in pid[..pos]
    ensures pos < |pid| ==> pid[pos] == '~'
  {
    if pid == "" || pid[0] == '~' then 0
    else
      var rest := FirstTilde(pid[1..]);
      assert pid[..rest + 1] == [pid[0]] + pid[1..][..rest];
      rest + 1
  }

  /** The factory part of a PID; empty when the PID names no factory instance. */
  function FactoryPid(pid: string): string {
    var pos := FirstTilde(pid);
    if pos == |pid| then "" else pid[..pos]
  }

  /** The first `~` of a text starting with `a` is the one of `a`, if it has one. */
  lemma {:induction false} FirstTildeOfConcat(a: string, b: string)
    ensures FirstTilde(a + b) == if FirstTilde(a) < |a| then FirstTilde(a) else |a| + FirstTilde(b)
  {
    if a == "" {
      assert a + b == b;
    } else {
      assert (a + b)[1..] == a[1..] + b;
      FirstTildeOfConcat(a[1..], b);
    }
  }

  /** The factory part of a PID built as `factoryPid~name` is `factoryPid` exactly when
      `factoryPid` itself has no `~`. */
  lemma FactoryPidOfInstance(factoryPid: string, name: string)
    ensures FactoryPid(factoryPid + "~" + name) == factoryPid <==> '~' !in factoryPid
  {
    var pid := factoryPid + "~" + name;
    assert pid == factoryPid + ("~" + name);
    FirstTildeOfConcat(factoryPid, "~" + name);
    var pos := FirstTilde(factoryPid);
    if pos == |factoryPid| {
      assert factoryPid[..pos] == factoryPid;
      assert pid[..pos] == factoryPid;
    } else {
      assert |FactoryPid(pid)| == pos;
    }
  }

  /** A PID names an instance of a factory exactly when it begins with the factory's PID and a `~`, and that
      is its first. */
  lemma FactoryPidExactly(pid: string, f: string)
    requires f != ""
    ensures FactoryPid(pid) == f <==> '~' !in f && f + "~" <= pid
  {
    var pos := FirstTilde(pid);
    if '~' !in f && f + "~" <= pid {
      var rest := pid[|f| + 1..];
      assert pid == f + "~" + rest;
      FactoryPidOfInstance(f, rest);
    }
    if FactoryPid(pid) == f {
      assert pid[..pos + 1] == f + "~";
    }
  }
}
