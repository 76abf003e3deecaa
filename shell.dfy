/**
 * `runBash(cmd)` in both run_pipeline.py and run_segmentation.py is
 * `subprocess.check_call(cmd, shell=True)`: the command runs to completion and a
 * non-zero exit status raises `CalledProcessError`, which nothing catches. A
 * sequence of such calls therefore runs its commands in order until the first one
 * that fails, that one included, and none after it. Exit statuses are an oracle.
 */
module Shell {

  /** Every command in `cmds` exits with status 0. */
  predicate AllSucceed<C>(cmds: seq<C>, status: C -> int) {
    forall i :: 0 <= i < |cmds| ==> status(cmds[i]) == 0
  }

  /** The commands that run when `cmds` are passed to `runBash` one after another. */
  function Executed<C>(cmds: seq<C>, status: C -> int): seq<C> {
    if cmds == [] then []
    else if status(cmds[0]) != 0 then [cmds[0]]
    else [cmds[0]] + Executed(cmds[1..], status)
  }

  /**
   * What runs is a prefix of the commands: all of them when every one succeeds,
   * and otherwise the commands up to the first failure, which is the last to run.
   */
  lemma {:induction false} ExecutedSpec<C>(cmds: seq<C>, status: C -> int)
    ensures var ran := Executed(cmds, status);
            && |ran| <= |cmds| && ran == cmds[..|ran|]
            && (AllSucceed(cmds, status) ==> ran == cmds)
            && (!AllSucceed(cmds, status) ==>
                  ran != [] && status(ran[|ran| - 1]) != 0 && AllSucceed(ran[..|ran| - 1], status))
  {
    if cmds != [] && status(cmds[0]) == 0 {
      ExecutedSpec(cmds[1..], status);
      var rest := Executed(cmds[1..], status);
      assert forall i :: 1 <= i < |cmds| ==> cmds[i] == cmds[1..][i - 1];
      var ran := [cmds[0]] + rest;
      assert ran == cmds[..|ran|];
      if !AllSucceed(cmds, status) {
        assert !AllSucceed(cmds[1..], status);
        assert ran[..|ran| - 1] == [cmds[0]] + rest[..|rest| - 1];
      }
    }
  }

  /** A single command runs, and the sequence succeeds exactly when it does. */
  lemma ExecutedOne<C>(c: C, status: C -> int)
    ensures Executed([c], status) == [c]
    ensures AllSucceed([c], status) <==> status(c) == 0
  {
    assert [c][1..] == [];
  }

  lemma AllSucceedConcat<C>(a: seq<C>, b: seq<C>, status: C -> int)
    ensures AllSucceed(a + b, status) <==> AllSucceed(a, status) && AllSucceed(b, status)
  {
    if AllSucceed(a, status) && AllSucceed(b, status) {
      forall i | 0 <= i < |a + b| ensures status((a + b)[i]) == 0 {
        if i >= |a| { assert (a + b)[i] == b[i - |a|]; }
      }
    }
    if AllSucceed(a + b, status) {
      forall i | 0 <= i < |a| ensures status(a[i]) == 0 {
        assert (a + b)[i] == a[i];
      }
      forall i | 0 <= i < |b| ensures status(b[i]) == 0 {
        assert (a + b)[|a| + i] == b[i];
      }
    }
  }

  /** Running `a` then `b`: `b` starts only when every command of `a` succeeded. */
  lemma {:induction false} ExecutedConcat<C>(a: seq<C>, b: seq<C>, status: C -> int)
    ensures Executed(a + b, status) ==
            if AllSucceed(a, status) then a + Executed(b, status) else Executed(a, status)
  {
    if a != [] {
      assert (a + b)[0] == a[0];
      assert (a + b)[1..] == a[1..] + b;
      if status(a[0]) == 0 {
        ExecutedConcat(a[1..], b, status);
        assert AllSucceed(a, status) <==> AllSucceed(a[1..], status) by {
          assert forall i :: 1 <= i < |a| ==> a[i] == a[1..][i - 1];
        }
      }
    } else {
      assert a + b == b;
    }
  }

  /** The first failing command is the last one that runs, and the sequence does not all succeed. */
  lemma ExecutedAtFailure<C>(cmds: seq<C>, k: nat, status: C -> int)
    requires k < |cmds| && AllSucceed(cmds[..k], status) && status(cmds[k]) != 0
    ensures Executed(cmds, status) == cmds[..k + 1]
    ensures !AllSucceed(cmds, status)
  {
    assert cmds == cmds[..k] + cmds[k..];
    ExecutedConcat(cmds[..k], cmds[k..], status);
    assert cmds[k..][0] == cmds[k];
    assert cmds[..k] + [cmds[k]] == cmds[..k + 1];
  }

  /** When every command succeeds, every command runs. */
  lemma ExecutedAll<C>(cmds: seq<C>, status: C -> int)
    requires AllSucceed(cmds, status)
    ensures Executed(cmds, status) == cmds
  {
    ExecutedSpec(cmds, status);
  }
}
