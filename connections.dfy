/** A connection checked out of a pool (or opened on its own), as the
    controllers and scripts drive it: every call is recorded in order, and the
    server's answer to each call is fixed in advance by an oracle, so a run is a
    function of those answers. */
module Connections {
  import opened JsValues

  /** Which driver made the connection: a mysql2 connection, or a pg PoolClient. */
  datatype Dialect = MySql | Postgres

  /** One operation issued on a connection. */
  datatype Call =
    | Send(text: string, params: seq<Value>)  // conn.query(text, params)
    | BeginTransaction                        // conn.beginTransaction()
    | Commit                                  // conn.commit()
    | Rollback                                // conn.rollback()
    | Release                                 // conn.release(): back to the pool
    | End                                     // connection.end(): close it

  /** The TypeError thrown when a pg PoolClient is asked for one of the mysql2
      transaction methods, which it does not have. */
  function NotAFunction(c: Call): Error
  {
    var name := match c
      case BeginTransaction => "beginTransaction"
      case Commit => "commit"
      case _ => "rollback";
    Error("", "conn." + name + " is not a function")
  }

  predicate IsTransactionMethod(c: Call)
  {
    c.BeginTransaction? || c.Commit? || c.Rollback?
  }

  /** A log that has `done` and then `c` as a prefix holds `c` right after
      `done`. */
  lemma PrefixExtends(script: seq<Call>, done: seq<Call>, c: Call)
    requires done + [c] <= script
    ensures script[..|done|] == done && script[..|done| + 1] == done + [c] && script[|done|] == c
  {
    assert script[..|done| + 1] == done + [c];
    assert script[..|done|] == script[..|done| + 1][..|done|];
  }

  class Connection {
    const dialect: Dialect
    /** The answer the server gives to the call at each position of `calls`. */
    const answer: nat -> Outcome
    /** Every call issued so far, oldest first. */
    var calls: seq<Call>

    constructor (dialect: Dialect, answer: nat -> Outcome)
      ensures this.dialect == dialect && this.answer == answer
      ensures calls == []
    {
      this.dialect := dialect;
      this.answer := answer;
      calls := [];
    }

    /** What the call `c` gets back when it is issued at position `k`: a pg
        client throws a TypeError for the mysql2 transaction methods; anything
        else gets the server's answer. */
    function Reply(k: nat, c: Call): (r: Outcome)
      ensures dialect == Postgres && IsTransactionMethod(c) ==> r == Err(NotAFunction(c))
      ensures dialect == MySql || !IsTransactionMethod(c) ==> r == answer(k)
    {
      if dialect == Postgres && IsTransactionMethod(c) then Err(NotAFunction(c)) else answer(k)
    }

    /** Every call of `script`, issued from log position `base` on, succeeds. */
    predicate AllSucceed(base: nat, script: seq<Call>)
    {
      forall j | 0 <= j < |script| :: Reply(base + j, script[j]).Ok?
    }

    lemma AllSucceedAppend(base: nat, script: seq<Call>, c: Call)
      requires AllSucceed(base, script) && Reply(base + |script|, c).Ok?
      ensures AllSucceed(base, script + [c])
    {
      var s := script + [c];
      forall j | 0 <= j < |s|
        ensures Reply(base + j, s[j]).Ok?
      {
        if j < |script| {
          assert s[j] == script[j];
        }
      }
    }

    /** How many calls of `script`, issued from log position `base` on, succeed
        before the first one that fails. */
    function Succeeding(base: nat, script: seq<Call>): (n: nat)
      ensures n <= |script|
      ensures forall j | 0 <= j < n :: Reply(base + j, script[j]).Ok?
      ensures n < |script| ==> Reply(base + n, script[n]).Err?
      decreases |script|
    {
      if script == [] || Reply(base, script[0]).Err? then 0
      else 1 + Succeeding(base + 1, script[1..])
    }

    /** `Succeeding` is the one count whose calls all succeed and whose next
        call, if any, fails. */
    lemma SucceedingStopsAt(base: nat, script: seq<Call>, m: nat)
      requires m <= |script| && AllSucceed(base, script[..m])
      requires m < |script| ==> Reply(base + m, script[m]).Err?
      ensures Succeeding(base, script) == m
    {
    }

    /** `after` is the log once `script` has been issued after `before` up to
        and including its first failing call, and `r` says how that went:
        `Ok` when every call succeeded, else the error of the one that failed. */
    predicate RanUntilFailure(before: seq<Call>, script: seq<Call>, r: Result<(), Error>, after: seq<Call>)
    {
      var n := Succeeding(|before|, script);
      && (r.Ok? ==> n == |script| && after == before + script)
      && (r.Err? ==> n < |script| && after == before + script[..n + 1]
                     && Reply(|before| + n, script[n]) == Err(r.error))
    }

    lemma RanToTheEnd(before: seq<Call>, script: seq<Call>)
      requires AllSucceed(|before|, script)
      ensures RanUntilFailure(before, script, Ok(()), before + script)
    {
      assert script[..|script|] == script;
      SucceedingStopsAt(|before|, script, |script|);
    }

    lemma RanIntoFailure(before: seq<Call>, script: seq<Call>, m: nat, e: Error)
      requires m < |script| && AllSucceed(|before|, script[..m])
      requires Reply(|before| + m, script[m]) == Err(e)
      ensures RanUntilFailure(before, script, Err(e), before + script[..m + 1])
    {
      SucceedingStopsAt(|before|, script, m);
    }

    /** A single call is a script of one call. */
    lemma RanOne(before: seq<Call>, c: Call, res: Outcome, after: seq<Call>)
      requires res == Reply(|before|, c) && after == before + [c]
      ensures RanUntilFailure(before, [c], if res.Ok? then Ok(()) else Err(res.error), after)
    {
      if res.Ok? {
        AllSucceedAppend(|before|, [], c);
        assert [] + [c] == [c];
        RanToTheEnd(before, [c]);
      } else {
        assert [c][..1] == [c];
        RanIntoFailure(before, [c], 0, res.error);
      }
    }

    /** The calls counted by `Succeeding` all succeed. */
    lemma SucceededPrefix(base: nat, script: seq<Call>)
      ensures AllSucceed(base, script[..Succeeding(base, script)])
    {
      var n := Succeeding(base, script);
      forall j | 0 <= j < n
        ensures Reply(base + j, script[..n][j]).Ok?
      {
        assert script[..n][j] == script[j];
      }
    }

    lemma AllSucceedConcat(base: nat, a: seq<Call>, b: seq<Call>)
      requires AllSucceed(base, a) && AllSucceed(base + |a|, b)
      ensures AllSucceed(base, a + b)
    {
      forall j | 0 <= j < |a + b|
        ensures Reply(base + j, (a + b)[j]).Ok?
      {
        if j < |a| {
          assert (a + b)[j] == a[j];
        } else {
          assert (a + b)[j] == b[j - |a|];
        }
      }
    }

    /** Running two scripts one after the other, the second only when the
        first went through, is running their concatenation. */
    lemma RanThen(before: seq<Call>, s1: seq<Call>, mid: seq<Call>, s2: seq<Call>,
                  r: Result<(), Error>, after: seq<Call>)
      requires RanUntilFailure(before, s1, Ok(()), mid)
      requires RanUntilFailure(mid, s2, r, after)
      ensures RanUntilFailure(before, s1 + s2, r, after)
    {
      var base := |before|;
      assert Succeeding(base, s1) == |s1| && mid == before + s1;
      SucceededPrefix(base, s1);
      assert s1[..|s1|] == s1;
      var n2 := Succeeding(|mid|, s2);
      SucceededPrefix(|mid|, s2);
      AllSucceedConcat(base, s1, s2[..n2]);
      var s := s1 + s2;
      assert s[..|s1| + n2] == s1 + s2[..n2];
      if r.Ok? {
        RanThenToTheEnd(before, s1, s2, after);
      } else {
        RanThenIntoFailure(before, s1, s2, n2, r.error, after);
      }
    }

    lemma RanThenToTheEnd(before: seq<Call>, s1: seq<Call>, s2: seq<Call>, after: seq<Call>)
      requires AllSucceed(|before|, s1 + s2) && after == before + s1 + s2
      ensures RanUntilFailure(before, s1 + s2, Ok(()), after)
    {
      RanToTheEnd(before, s1 + s2);
    }

    lemma RanThenIntoFailure(before: seq<Call>, s1: seq<Call>, s2: seq<Call>, n2: nat, e: Error,
                             after: seq<Call>)
      requires n2 < |s2| && AllSucceed(|before|, (s1 + s2)[..|s1| + n2])
      requires Reply(|before| + |s1| + n2, s2[n2]) == Err(e)
      requires after == before + s1 + s2[..n2 + 1]
      ensures RanUntilFailure(before, s1 + s2, Err(e), after)
    {
      var s := s1 + s2;
      assert s[|s1| + n2] == s2[n2];
      assert s[..|s1| + n2 + 1] == s1 + s2[..n2 + 1];
      RanIntoFailure(before, s, |s1| + n2, e);
    }

    /** Once a script has failed, whatever was to follow it never runs. */
    lemma RanStopped(before: seq<Call>, s1: seq<Call>, e: Error, after: seq<Call>, s2: seq<Call>)
      requires RanUntilFailure(before, s1, Err(e), after)
      ensures RanUntilFailure(before, s1 + s2, Err(e), after)
    {
      var base := |before|;
      var n := Succeeding(base, s1);
      SucceededPrefix(base, s1);
      assert (s1 + s2)[..n] == s1[..n];
      assert (s1 + s2)[n] == s1[n];
      SucceedingStopsAt(base, s1 + s2, n);
      assert (s1 + s2)[..n + 1] == s1[..n + 1];
    }

    /** Issues `c` and returns what it gets back. */
    method Perform(c: Call) returns (r: Outcome)
      modifies this
      ensures calls == old(calls) + [c]
      ensures r == Reply(|old(calls)|, c)
    {
      r := Reply(|calls|, c);
      calls := calls + [c];
    }
  }
}
