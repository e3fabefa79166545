/** The write side of a database or repository collaborator: every write that is
    issued is appended to a log, and an oracle decides what the write answers. */
module Backend {
  import opened Common

  /** A store that accepts writes of type `W`.  `reply(n, w)` is what the n-th write
      (counting from 0) answers when it is `w`; it stands for the database, which is
      not part of this model. */
  class WriteLog<W> {
    var entries: seq<W>
    const reply: (nat, W) -> Reply

    constructor (reply: (nat, W) -> Reply)
      ensures entries == [] && this.reply == reply
    {
      entries := [];
      this.reply := reply;
    }

    /** Issues one write. */
    method Exec(w: W) returns (r: Reply)
      modifies this
      ensures entries == old(entries) + [w]
      ensures r == reply(old(|entries|), w)
    {
      r := reply(|entries|, w);
      entries := entries + [w];
    }
  }

  /** The writes issued when `planned` is executed in order from log position
      `start`, stopping at the first one that fails, and the error returned. */
  function Attempt<W>(planned: seq<W>, reply: (nat, W) -> Reply, start: nat): (res: (seq<W>, Option<Error>))
    ensures |res.0| <= |planned|
  {
    if planned == [] then ([], None)
    else
      var r := reply(start, planned[0]);
      if r.err.Some? then ([planned[0]], r.err)
      else
        var rest := Attempt(planned[1..], reply, start + 1);
        ([planned[0]] + rest.0, rest.1)
  }

  /** The meaning of `Attempt`: the issued writes are a prefix of the plan; every
      issued write but the last succeeded; the call returns nil exactly when the
      whole plan was issued and every write succeeded, and otherwise the error of
      the last issued write, after which nothing more is issued. */
  lemma AttemptSpec<W>(planned: seq<W>, reply: (nat, W) -> Reply, start: nat, issued: seq<W>, err: Option<Error>)
    requires Attempt(planned, reply, start) == (issued, err)
    ensures issued == planned[..|issued|]
    ensures forall k :: 0 <= k < |issued| - 1 ==> reply(start + k, issued[k]).err.None?
    ensures err.None? <==> issued == planned && forall k :: 0 <= k < |planned| ==> reply(start + k, planned[k]).err.None?
    ensures err.Some? ==> |issued| >= 1 && reply(start + |issued| - 1, issued[|issued| - 1]).err == err
  {
    AttemptPrefix(planned, reply, start);
    AttemptEarlierOk(planned, reply, start);
    AttemptNone(planned, reply, start);
  }

  lemma {:induction false} AttemptPrefix<W>(planned: seq<W>, reply: (nat, W) -> Reply, start: nat)
    ensures var res := Attempt(planned, reply, start);
      && res.0 == planned[..|res.0|]
      && (res.1.Some? ==> |res.0| >= 1 && reply(start + |res.0| - 1, res.0[|res.0| - 1]).err == res.1)
  {
    if planned != [] && reply(start, planned[0]).err.None? {
      AttemptPrefix(planned[1..], reply, start + 1);
      var rest := Attempt(planned[1..], reply, start + 1);
      assert Attempt(planned, reply, start).0 == [planned[0]] + rest.0;
      assert [planned[0]] + planned[1..][..|rest.0|] == planned[..|rest.0| + 1];
      if rest.1.Some? {
        assert ([planned[0]] + rest.0)[|rest.0|] == rest.0[|rest.0| - 1];
      }
    }
  }

  /** Every issued write but the last succeeded. */
  lemma {:induction false} AttemptEarlierOk<W>(planned: seq<W>, reply: (nat, W) -> Reply, start: nat)
    ensures forall k :: 0 <= k < |Attempt(planned, reply, start).0| - 1 ==>
      reply(start + k, Attempt(planned, reply, start).0[k]).err.None?
  {
    if planned != [] && reply(start, planned[0]).err.None? {
      AttemptEarlierOk(planned[1..], reply, start + 1);
      var rest := Attempt(planned[1..], reply, start + 1);
      assert forall j :: 0 <= j < |rest.0| - 1 ==> reply(start + 1 + j, rest.0[j]).err.None?;
      var issued := [planned[0]] + rest.0;
      assert Attempt(planned, reply, start).0 == issued;
      forall k | 1 <= k < |issued| - 1
        ensures reply(start + k, issued[k]).err.None?
      {
        var j := k - 1;
        assert issued[k] == rest.0[j] && start + k == start + 1 + j;
      }
    }
  }

  /** Nil is returned exactly when the whole plan went out and every write succeeded. */
  lemma AttemptNone<W>(planned: seq<W>, reply: (nat, W) -> Reply, start: nat)
    ensures Attempt(planned, reply, start).1.None? <==>
      Attempt(planned, reply, start).0 == planned && forall k :: 0 <= k < |planned| ==> reply(start + k, planned[k]).err.None?
  {
    if forall k :: 0 <= k < |planned| ==> reply(start + k, planned[k]).err.None? {
      AttemptAllOk(planned, reply, start);
    } else {
      var k :| 0 <= k < |planned| && reply(start + k, planned[k]).err.Some?;
      AttemptFails(planned, reply, start, k);
    }
  }

  /** A planned write that would fail makes the attempt return an error. */
  lemma {:induction false} AttemptFails<W>(planned: seq<W>, reply: (nat, W) -> Reply, start: nat, k: nat)
    requires k < |planned| && reply(start + k, planned[k]).err.Some?
    ensures Attempt(planned, reply, start).1.Some?
  {
    if reply(start, planned[0]).err.None? {
      assert planned[1..][k - 1] == planned[k];
      AttemptFails(planned[1..], reply, start + 1, k - 1);
    }
  }

  /** The loop form of `Attempt`: after the first `i` planned writes were issued and
      succeeded, the rest of the outcome is that of the remaining writes. */
  lemma {:induction false} AttemptSplit<W>(planned: seq<W>, reply: (nat, W) -> Reply, start: nat, i: nat)
    requires i <= |planned|
    requires forall k :: 0 <= k < i ==> reply(start + k, planned[k]).err.None?
    ensures Attempt(planned, reply, start) ==
      (planned[..i] + Attempt(planned[i..], reply, start + i).0, Attempt(planned[i..], reply, start + i).1)
  {
    if i > 0 {
      forall k | 0 <= k < i - 1
        ensures reply(start + 1 + k, planned[1..][k]).err.None?
      {
        assert planned[1..][k] == planned[k + 1];
      }
      AttemptSplit(planned[1..], reply, start + 1, i - 1);
      assert planned[1..][i - 1..] == planned[i..];
      var tail := Attempt(planned[i..], reply, start + i);
      var rest := Attempt(planned[1..], reply, start + 1);
      assert rest == (planned[1..][..i - 1] + tail.0, tail.1);
      assert reply(start, planned[0]).err.None?;
      assert Attempt(planned, reply, start) == ([planned[0]] + rest.0, rest.1);
      assert [planned[0]] + (planned[1..][..i - 1] + tail.0) == ([planned[0]] + planned[1..][..i - 1]) + tail.0;
      assert [planned[0]] + planned[1..][..i - 1] == planned[..i];
    } else {
      assert planned[i..] == planned;
      var whole := Attempt(planned, reply, start);
      assert planned[..i] + whole.0 == whole.0;
      assert whole == (whole.0, whole.1);
    }
  }

  /** The outcome when the writes before position `i` succeed and the one at `i` fails. */
  lemma AttemptFailsAt<W>(planned: seq<W>, reply: (nat, W) -> Reply, start: nat, i: nat)
    requires i < |planned|
    requires forall k :: 0 <= k < i ==> reply(start + k, planned[k]).err.None?
    requires reply(start + i, planned[i]).err.Some?
    ensures Attempt(planned, reply, start) == (planned[..i + 1], reply(start + i, planned[i]).err)
  {
    AttemptSplit(planned, reply, start, i);
    assert planned[i..][0] == planned[i];
    assert planned[..i] + [planned[i]] == planned[..i + 1];
  }

  /** The outcome when every planned write succeeds. */
  lemma AttemptAllOk<W>(planned: seq<W>, reply: (nat, W) -> Reply, start: nat)
    requires forall k :: 0 <= k < |planned| ==> reply(start + k, planned[k]).err.None?
    ensures Attempt(planned, reply, start) == (planned, None)
  {
    AttemptSplit(planned, reply, start, |planned|);
    assert planned[..|planned|] == planned;
    assert planned[|planned|..] == [];
    assert Attempt([], reply, start + |planned|) == ([], None);
    assert planned + [] == planned;
  }

  /** The log went from `before` to `after` by attempting `planned`, and `err` is
      that attempt's outcome. */
  ghost predicate Attempted<W>(planned: seq<W>, reply: (nat, W) -> Reply, before: seq<W>, after: seq<W>, err: Option<Error>)
  {
    var res := Attempt(planned, reply, |before|);
    after == before + res.0 && err == res.1
  }

  /** What a log that went through `Attempted` shows: the earlier entries are
      kept, the new entries are a prefix of the plan and every one but the last
      succeeded. */
  lemma AttemptedMeaning<W>(planned: seq<W>, reply: (nat, W) -> Reply, before: seq<W>, after: seq<W>, err: Option<Error>)
    requires Attempted(planned, reply, before, after, err)
    ensures |before| <= |after| && after[..|before|] == before
    ensures after[|before|..] == planned[..|after| - |before|]
    ensures forall k :: |before| <= k < |after| - 1 ==> reply(k, after[k]).err.None?
  {
    var res := Attempt(planned, reply, |before|);
    AttemptSpec(planned, reply, |before|, res.0, err);
    IssuedOnLog(planned, reply, before, res.0, after, err);
  }

  /** The outcome a log that went through `Attempted` shows: nil exactly when the
      whole plan was appended and every write succeeded, and otherwise the error
      of the last new entry. */
  lemma AttemptedOutcome<W>(planned: seq<W>, reply: (nat, W) -> Reply, before: seq<W>, after: seq<W>, err: Option<Error>)
    requires Attempted(planned, reply, before, after, err)
    ensures err.None? <==> after == before + planned && forall k :: 0 <= k < |planned| ==> reply(|before| + k, planned[k]).err.None?
    ensures err.Some? ==> |before| < |after| && reply(|after| - 1, after[|after| - 1]).err == err
  {
    var res := Attempt(planned, reply, |before|);
    AttemptSpec(planned, reply, |before|, res.0, err);
    IssuedOnLog(planned, reply, before, res.0, after, err);
  }

  /** `AttemptSpec`'s facts about the issued writes, read off a log that has them
      appended. */
  lemma IssuedOnLog<W>(planned: seq<W>, reply: (nat, W) -> Reply, before: seq<W>, issued: seq<W>, after: seq<W>, err: Option<Error>)
    requires after == before + issued
    requires |issued| <= |planned| && issued == planned[..|issued|]
    requires forall k :: 0 <= k < |issued| - 1 ==> reply(|before| + k, issued[k]).err.None?
    requires err.None? <==> issued == planned && forall k :: 0 <= k < |planned| ==> reply(|before| + k, planned[k]).err.None?
    requires err.Some? ==> |issued| >= 1 && reply(|before| + |issued| - 1, issued[|issued| - 1]).err == err
    ensures |before| <= |after| && after[..|before|] == before
    ensures after[|before|..] == planned[..|after| - |before|]
    ensures forall k :: |before| <= k < |after| - 1 ==> reply(k, after[k]).err.None?
    ensures err.None? <==> after == before + planned && forall k :: 0 <= k < |planned| ==> reply(|before| + k, planned[k]).err.None?
    ensures err.Some? ==> |before| < |after| && reply(|after| - 1, after[|after| - 1]).err == err
  {
    assert after[..|before|] == before && after[|before|..] == issued;
    if after == before + planned {
      assert after[|before|..] == planned;
    }
    forall k | |before| <= k < |after| - 1
      ensures reply(k, after[k]).err.None?
    {
      assert after[k] == issued[k - |before|];
    }
  }

  /** Straight-line form of `Attempt`: `issued` went out and succeeded, and the
      outcome of the whole plan is theirs followed by the outcome of `rest`. */
  ghost predicate Pending<W>(planned: seq<W>, reply: (nat, W) -> Reply, start: nat, issued: seq<W>, rest: seq<W>)
  {
    var tail := Attempt(rest, reply, start + |issued|);
    Attempt(planned, reply, start) == (issued + tail.0, tail.1)
  }

  lemma PendingStart<W>(planned: seq<W>, reply: (nat, W) -> Reply, start: nat)
    ensures Pending(planned, reply, start, [], planned)
  {
    assert [] + Attempt(planned, reply, start).0 == Attempt(planned, reply, start).0;
  }

  /** Issuing the next planned write `w`: on failure the plan's outcome is settled;
      on success the next write is pending. */
  lemma PendingIssue<W>(planned: seq<W>, reply: (nat, W) -> Reply, start: nat, issued: seq<W>, rest: seq<W>, w: W)
    requires Pending(planned, reply, start, issued, rest)
    requires rest != [] && rest[0] == w
    ensures reply(start + |issued|, w).err.Some? ==>
      Attempt(planned, reply, start) == (issued + [w], reply(start + |issued|, w).err)
    ensures reply(start + |issued|, w).err.None? ==>
      Pending(planned, reply, start, issued + [w], rest[1..])
  {
    var tail := Attempt(rest[1..], reply, start + |issued| + 1);
    if reply(start + |issued|, w).err.None? {
      assert Attempt(rest, reply, start + |issued|) == ([w] + tail.0, tail.1);
      assert issued + ([w] + tail.0) == (issued + [w]) + tail.0;
    }
  }

  /** After issuing the at most one write `ws` with outcome `err`: a failure
      settles the plan's outcome, a success leaves `rest` pending. */
  ghost predicate Issued<W>(planned: seq<W>, reply: (nat, W) -> Reply, start: nat, issued: seq<W>, ws: seq<W>, rest: seq<W>, err: Option<Error>)
  {
    (err.Some? ==> Attempt(planned, reply, start) == (issued + ws, err)) &&
    (err.None? ==> Pending(planned, reply, start, issued + ws, rest))
  }

  /** Issuing the next at most one planned write `ws`: when it fails the plan's
      outcome is settled, otherwise what follows is pending. */
  lemma PendingIssueAtMostOne<W>(planned: seq<W>, reply: (nat, W) -> Reply, start: nat, issued: seq<W>, ws: seq<W>, rest: seq<W>)
    requires Pending(planned, reply, start, issued, ws + rest)
    requires |ws| <= 1
    ensures ws != [] && reply(start + |issued|, ws[0]).err.Some? ==>
      Attempt(planned, reply, start) == (issued + ws, reply(start + |issued|, ws[0]).err)
    ensures ws == [] || reply(start + |issued|, ws[0]).err.None? ==>
      Pending(planned, reply, start, issued + ws, rest)
  {
    if ws == [] {
      assert ws + rest == rest && issued + ws == issued;
    } else {
      assert ws == [ws[0]] && (ws + rest)[1..] == rest;
      PendingIssue(planned, reply, start, issued, ws + rest, ws[0]);
    }
  }

  /** Issue the next planned write `w` on `log`, keeping track of the plan: a
      failure settles the plan's outcome, a success leaves the rest pending. */
  method IssueNext<W>(log: WriteLog<W>, w: W, ghost planned: seq<W>, ghost before: seq<W>, ghost issued: seq<W>, ghost rest: seq<W>)
    returns (err: Option<Error>)
    requires log.entries == before + issued
    requires Pending(planned, log.reply, |before|, issued, rest)
    requires rest != [] && rest[0] == w
    modifies log
    ensures log.entries == before + (issued + [w])
    ensures err == log.reply(|before| + |issued|, w).err
    ensures err.Some? ==> Attempted(planned, log.reply, before, log.entries, err)
    ensures err.None? ==> Pending(planned, log.reply, |before|, issued + [w], rest[1..])
  {
    var r := log.Exec(w);
    err := r.err;
    PendingIssue(planned, log.reply, |before|, issued, rest, w);
  }

  lemma PendingDone<W>(planned: seq<W>, reply: (nat, W) -> Reply, start: nat, issued: seq<W>)
    requires Pending(planned, reply, start, issued, [])
    ensures Attempt(planned, reply, start) == (issued, None)
  {
    assert issued + [] == issued;
  }
}
