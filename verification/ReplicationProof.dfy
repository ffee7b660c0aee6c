/** Safety of live replication over every run of the machine in `Replication`. */
module ReplicationProof {
  import opened Bytes
  import opened Wrappers
  import opened Connector
  import opened Cdc
  import opened ChangeLog
  import opened Replication
  import Lsn
  import Target

  // ----- tokens, names, events -----

  lemma TokenOfLsn(lsn: nat)
    requires lsn < Pow256(LSN_BYTES)
    ensures LsnOf(TokenOf(lsn)) == Ok(lsn) && TokenOf(lsn) != ""
  {
    Lsn.TokenRoundTrip(ToBE(lsn, LSN_BYTES));
    FromBEToBE(lsn, LSN_BYTES);
    assert ToBE(lsn, LSN_BYTES) != [];
  }

  lemma {:induction false} LookupFinds(tables: seq<TableSchema>, t: nat)
    requires t < |tables| && forall i, j :: 0 <= i < j < |tables| ==> tables[i].name != tables[j].name
    ensures Lookup(tables, tables[t].name) == Some(t)
  {
    if t < |tables| - 1 { LookupFinds(tables[..|tables| - 1], t); }
  }

  lemma {:induction false} SentForMember(sent: seq<Item>, t: nat, i: nat) returns (j: nat)
    requires i in SentFor(sent, t)
    ensures j < |sent| && sent[j].Change? && sent[j].table == t && sent[j].index == i
  {
    var n := |sent| - 1;
    if sent[n].Change? && sent[n].table == t && sent[n].index == i {
      j := n;
    } else {
      j := SentForMember(sent[..n], t, i);
    }
  }

  lemma {:induction false} SentForPrefix(sent: seq<Item>, n: nat, t: nat)
    requires n <= |sent|
    ensures SentFor(sent[..n], t) <= SentFor(sent, t)
  {
    if n < |sent| {
      SentForPrefix(sent[..|sent| - 1], n, t);
      assert sent[..|sent| - 1][..n] == sent[..n];
    } else {
      assert sent[..n] == sent;
    }
  }

  lemma SentForSnoc(sent: seq<Item>, item: Item, t: nat)
    ensures SentFor(sent + [item], t) ==
            if item.Change? && item.table == t then SentFor(sent, t) + [item.index] else SentFor(sent, t)
  {
    assert (sent + [item])[..|sent|] == sent;
  }

  lemma {:induction false} EmptyWindow(log: seq<Entry>, t: nat, lo: nat, n: nat)
    requires n <= |log|
    ensures Window(log, t, lo, lo, n) == []
  {
    if n > 0 { EmptyWindow(log, t, lo, n - 1); }
  }

  // ----- growth of the source -----

  lemma StableWindow(c: Config, s: State, entries: seq<Entry>, t: nat, lo: nat, hi: nat)
    requires ValidConfig(c) && t < |c.tables| && hi <= s.clock
    requires forall k :: 0 <= k < |entries| ==> s.clock < entries[k].lsn
    ensures var log := s.log + entries;
      && Window(log, t, lo, hi, |log|) == Window(s.log, t, lo, hi, |s.log|)
      && SourceState(c.tables[t], c.init[t], log, t, lo, hi, |log|)
           == SourceState(c.tables[t], c.init[t], s.log, t, lo, hi, |s.log|)
  {
    var log := s.log + entries;
    LaterEntries(c.tables[t], c.init[t], log, t, lo, hi, |s.log|, |log|);
    SameLog(c.tables[t], c.init[t], log, s.log, t, lo, hi, |s.log|);
  }

  lemma {:induction false} StableReplay(t: TableSchema, m: Image, log: seq<Entry>, entries: seq<Entry>, w: seq<nat>)
    requires forall k :: 0 <= k < |w| ==> w[k] < |log|
    ensures Replay(t, m, log + entries, w) == Replay(t, m, log, w)
  {
    if w != [] { StableReplay(t, m, log, entries, w[..|w| - 1]); }
  }

  lemma GrowKeepsCovered(c: Config, log: seq<Entry>, entries: seq<Entry>, applied: set<nat>, clock: nat, hi: nat)
    requires Covered(c, log, applied, hi) && hi <= clock
    requires forall k :: 0 <= k < |entries| ==> clock < entries[k].lsn
    ensures Covered(c, log + entries, applied, hi)
  {
  }

  lemma GrowKeepsItems(c: Config, log: seq<Entry>, entries: seq<Entry>, clock: nat, clock': nat, base: nat,
                       sent: seq<Item>)
    requires ItemsOk(c, log, clock, base, sent) && clock <= clock'
    ensures ItemsOk(c, log + entries, clock', base, sent)
  {
    hide Forwarded, EventOf, TokenOf;
    forall j | 0 <= j < |sent|
      ensures ItemOk(c, log + entries, clock', base, sent[j])
    {
      assert ItemOk(c, log, clock, base, sent[j]);
    }
  }

  lemma GrowKeepsWindows(c: Config, s: State, entries: seq<Entry>, clock: nat)
    requires ValidConfig(c) && Inv(c, s) && s.session.Up? && Enabled(c, s, Grow(entries, clock))
    ensures var u := s.session; var log := s.log + entries;
      && CommitsComplete(c, log, u.base, u.sent)
      && SentInOrder(c, log, clock, u.base, u.sent)
      && ProducerOk(c, log, clock, u.base, u.sent, u.producer)
  {
    hide Window, SentFor, Forwarded, Covered, SafeToken, Following, ItemOk, AllApplied, ValidEntry;
    var u := s.session;
    var log := s.log + entries;
    forall t, hi | 0 <= t < |c.tables| && 0 <= hi <= s.clock
      ensures Window(log, t, u.base, hi, |log|) == Window(s.log, t, u.base, hi, |s.log|)
    {
      StableWindow(c, s, entries, t, u.base, hi);
    }
    forall t | 0 <= t < |c.tables|
      ensures SentFor(u.sent, t) <= Window(log, t, u.base, clock, |log|)
    {
      WindowGrows(log, t, u.base, s.clock, clock, |log|);
    }
    forall j, t | 0 <= j < |u.sent| && u.sent[j].Commit? && 0 <= t < |c.tables|
      ensures SentFor(u.sent[..j], t) == Window(log, t, u.base, u.sent[j].lsn, |log|)
    {
      CommitBound(c, s, j);
    }
  }

  lemma CommitBound(c: Config, s: State, j: nat)
    requires ValidConfig(c) && Inv(c, s) && s.session.Up? && j < |s.session.sent| && s.session.sent[j].Commit?
    ensures s.session.base <= s.session.sent[j].lsn <= s.clock
  {
    assert ItemOk(c, s.log, s.clock, s.session.base, s.session.sent[j]);
  }

  lemma GrowKeepsFollowing(c: Config, s: State, entries: seq<Entry>, base: nat, done: seq<Item>)
    requires ValidConfig(c) && base <= s.clock && Following(c, s.log, s.target, base, done)
    requires forall k :: 0 <= k < |entries| ==> s.clock < entries[k].lsn
    ensures Following(c, s.log + entries, s.target, base, done)
  {
    hide SentFor, Forwarded, Replay, SourceState, Target.Represents;
    forall t | 0 <= t < |c.tables|
      ensures TableFollows(c, s.log + entries, s.target, base, t, SentFor(done, t))
    {
      assert TableFollows(c, s.log, s.target, base, t, SentFor(done, t));
      StableWindow(c, s, entries, t, c.start, base);
      StableReplay(c.tables[t], ImageAt(c, s.log, t, base), s.log, entries, SentFor(done, t));
    }
  }

  lemma GrowKeepsToken(c: Config, s: State, entries: seq<Entry>, clock: nat, token: Option<string>)
    requires s.clock <= clock && SafeToken(c, s.log, s.clock, s.applied, token)
    requires forall k :: 0 <= k < |entries| ==> s.clock < entries[k].lsn
    ensures SafeToken(c, s.log + entries, clock, s.applied, token)
  {
    hide Covered, LsnOf;
    if token.Some? {
      GrowKeepsCovered(c, s.log, entries, s.applied, s.clock, LsnOf(token.value).value);
    }
  }

  lemma GrowOk(c: Config, s: State, entries: seq<Entry>, clock: nat)
    requires ValidConfig(c) && Inv(c, s) && Enabled(c, s, Grow(entries, clock))
    ensures Inv(c, Do(c, s, Grow(entries, clock)))
  {
    hide Covered, SafeToken, ItemsOk, AllApplied, CommitsComplete, SentInOrder, ProducerOk, Following, ValidLog;
    GrowKeepsToken(c, s, entries, clock, s.durable);
    assert AppliedAfterStart(c, s.log + entries, s.applied);
    if s.session.Up? {
      var u := s.session;
      GrowKeepsToken(c, s, entries, clock, u.token);
      GrowKeepsCovered(c, s.log, entries, s.applied, s.clock, u.base);
      GrowKeepsItems(c, s.log, entries, s.clock, clock, u.base, u.sent);
      GrowKeepsWindows(c, s, entries, clock);
      if u.synced { GrowKeepsFollowing(c, s, entries, u.base, u.sent[..u.done]); }
    }
  }

  // ----- the session opens -----

  lemma StartOk(c: Config, s: State)
    requires ValidConfig(c) && Inv(c, s) && Enabled(c, s, Start)
    ensures Inv(c, Do(c, s, Start))
  {
    hide Window, LsnOf, Forwarded, SourceState, Target.Represents, ValidEntry;
    var s' := Do(c, s, Start);
    var u := s'.session;
    forall t | 0 <= t < |c.tables|
      ensures Window(s.log, t, u.base, u.base, |s.log|) == []
    {
      EmptyWindow(s.log, t, u.base, |s.log|);
    }
    assert u.sent[..0] == [];
    assert Covered(c, s.log, s.applied, u.base);
    assert u.synced ==> Following(c, s.log, s.target, u.base, []);
  }

  // ----- the producer -----

  /** A step that moves only the producer. */
  lemma ProducerMoves(c: Config, s: State, p: Producer)
    requires ValidConfig(c) && Inv(c, s) && s.session.Up?
    requires ProducerOk(c, s.log, s.clock, s.session.base, s.session.sent, p)
    ensures Inv(c, s.(session := s.session.(producer := p)))
  {
    hide Covered, SafeToken, ItemsOk, AllApplied, CommitsComplete, SentInOrder, ProducerOk, Following, ValidLog;
  }

  lemma QueryOk(c: Config, s: State)
    requires ValidConfig(c) && Inv(c, s) && Enabled(c, s, Query)
    ensures Inv(c, Do(c, s, Query))
  {
    hide Inv, ProducerOk, Window;
    var u, p := s.session, s.session.producer;
    var pending := Window(s.log, p.next, p.last, p.max, |s.log|);
    QueryProducer(c, s);
    ProducerMoves(c, s, p.(next := p.next + 1, pending := pending));
  }

  lemma QueryProducer(c: Config, s: State)
    requires ValidConfig(c) && Inv(c, s) && Enabled(c, s, Query)
    ensures var u, p := s.session, s.session.producer;
      ProducerOk(c, s.log, s.clock, u.base, u.sent,
                 p.(next := p.next + 1, pending := Window(s.log, p.next, p.last, p.max, |s.log|)))
  {
    hide Window, SentFor, Covered, SafeToken, ItemsOk, AllApplied, CommitsComplete, SentInOrder, Following, ValidEntry;
    var u, p := s.session, s.session.producer;
    forall t | 0 <= t < |c.tables|
      ensures t == p.next ==>
        SentFor(u.sent, t) + Window(s.log, t, p.last, p.max, |s.log|) == Window(s.log, t, u.base, p.max, |s.log|)
      ensures t == p.next - 1 ==> SentFor(u.sent, t) == Window(s.log, t, u.base, p.max, |s.log|)
    {
      WindowsJoin(s.log, t, u.base, p.last, p.max, |s.log|);
      assert SentFor(u.sent, t) + [] == SentFor(u.sent, t);
    }
  }

  /** Appending a message keeps what is said about earlier messages. */
  lemma AppendKeeps(c: Config, s: State, item: Item, p: Producer)
    requires ValidConfig(c) && Inv(c, s) && s.session.Up? && HasRoom(s.session)
    requires ItemOk(c, s.log, s.clock, s.session.base, item)
    requires item.Commit? ==> forall t :: 0 <= t < |c.tables| ==>
      SentFor(s.session.sent, t) == Window(s.log, t, s.session.base, item.lsn, |s.log|)
    requires SentInOrder(c, s.log, s.clock, s.session.base, s.session.sent + [item])
    requires ProducerOk(c, s.log, s.clock, s.session.base, s.session.sent + [item], p)
    ensures Inv(c, s.(session := s.session.(sent := s.session.sent + [item], producer := p)))
  {
    hide Covered, SafeToken, ItemOk, AllApplied, SentInOrder, ProducerOk, Following, ValidLog, Window, SentFor;
    var u := s.session;
    var sent := u.sent + [item];
    forall j, t | 0 <= j < |sent| && sent[j].Commit? && 0 <= t < |c.tables|
      ensures SentFor(sent[..j], t) == Window(s.log, t, u.base, sent[j].lsn, |s.log|)
    {
      assert sent[..j] == if j < |u.sent| then u.sent[..j] else u.sent;
    }
    assert sent[..u.done] == u.sent[..u.done];
  }

  lemma SendOk(c: Config, s: State)
    requires ValidConfig(c) && Inv(c, s) && Enabled(c, s, Send)
    ensures Inv(c, Do(c, s, Send))
  {
    var u, p := s.session, s.session.producer;
    SendProducer(c, s);
    var i := p.pending[0];
    AppendKeeps(c, s, Change(s.log[i].table, i, EventOf(c, s.log[i])), p.(pending := p.pending[1..]));
  }

  /** The next change to send lies in the window being scanned. */
  lemma NextPending(c: Config, s: State)
    requires ValidConfig(c) && Inv(c, s) && s.session.Up?
    requires s.session.producer.Scanning? && s.session.producer.pending != []
    ensures var u, p := s.session, s.session.producer;
      && 0 < p.next <= |c.tables| && p.pending[0] < |s.log|
      && InWindow(s.log[p.pending[0]], p.next - 1, p.last, p.max)
      && s.log[p.pending[0]].table < |c.tables| && Forwarded(s.log[p.pending[0]])
  {
    hide Covered, SafeToken, ItemsOk, AllApplied, CommitsComplete, SentInOrder, Following, ValidLog, AppliedAfterStart,
      Applied, SentFor, Forwarded, Window;
    var u, p := s.session, s.session.producer;
    var w := Window(s.log, p.next - 1, u.base, p.max, |s.log|);
    assert SentFor(u.sent, p.next - 1) + p.pending == w;
    assert w[|SentFor(u.sent, p.next - 1)|] == p.pending[0];
  }

  /** Where table `t` stands while a window is scanned. */
  lemma ScanFacts(c: Config, s: State, t: nat)
    requires ValidConfig(c) && Inv(c, s) && s.session.Up? && s.session.producer.Scanning? && t < |c.tables|
    ensures var u, p := s.session, s.session.producer;
      && Sorted(s.log) && u.base <= p.max <= s.clock
      && SentFor(u.sent, t) <= Window(s.log, t, u.base, s.clock, |s.log|)
      && (t == p.next - 1 ==> SentFor(u.sent, t) + p.pending == Window(s.log, t, u.base, p.max, |s.log|))
  {
    hide Window, SentFor, Covered, SafeToken, ItemsOk, AllApplied, CommitsComplete, Following, ValidEntry, Ahead,
      TokenAfter;
  }

  lemma SendTable(c: Config, s: State, t: nat)
    requires ValidConfig(c) && Inv(c, s) && Enabled(c, s, Send) && t < |c.tables|
    ensures var u, p := s.session, s.session.producer;
      var i := p.pending[0];
      var sent := u.sent + [Change(s.log[i].table, i, EventOf(c, s.log[i]))];
      && (t != p.next - 1 ==> SentFor(sent, t) == SentFor(u.sent, t))
      && (t == p.next - 1 ==> SentFor(sent, t) + p.pending[1..] == Window(s.log, t, u.base, p.max, |s.log|))
      && SentFor(sent, t) <= Window(s.log, t, u.base, s.clock, |s.log|)
  {
    hide Inv, Window, SentFor, EventOf, Forwarded, ValidConfig, Sorted;
    NextPending(c, s);
    ScanFacts(c, s, t);
    var u, p := s.session, s.session.producer;
    var i := p.pending[0];
    SentForSnoc(u.sent, Change(s.log[i].table, i, EventOf(c, s.log[i])), t);
    if t == p.next - 1 {
      WindowGrows(s.log, t, u.base, p.max, s.clock, |s.log|);
      OneMoreSent(SentFor(u.sent, t), p.pending, Window(s.log, t, u.base, p.max, |s.log|),
                  Window(s.log, t, u.base, s.clock, |s.log|));
    }
  }

  lemma OneMoreSent(sent: seq<nat>, pending: seq<nat>, w: seq<nat>, w': seq<nat>)
    requires pending != [] && sent + pending == w && w <= w'
    ensures (sent + [pending[0]]) + pending[1..] == w && sent + [pending[0]] <= w'
  {
    assert pending == [pending[0]] + pending[1..];
    assert sent + pending == (sent + [pending[0]]) + pending[1..];
  }

  lemma SendProducer(c: Config, s: State)
    requires ValidConfig(c) && Inv(c, s) && Enabled(c, s, Send)
    ensures var u, p := s.session, s.session.producer;
      var i := p.pending[0];
      var item := Change(s.log[i].table, i, EventOf(c, s.log[i]));
      && ItemOk(c, s.log, s.clock, u.base, item)
      && SentInOrder(c, s.log, s.clock, u.base, u.sent + [item])
      && ProducerOk(c, s.log, s.clock, u.base, u.sent + [item], p.(pending := p.pending[1..]))
  {
    hide Window, SentFor, Covered, SafeToken, ItemsOk, AllApplied, CommitsComplete, Following, ValidEntry, EventOf,
      Forwarded,
      ValidLog, AppliedAfterStart;
    NextPending(c, s);
    forall t | 0 <= t < |c.tables| {
      SendTable(c, s, t);
    }
  }

  lemma SendCommitOk(c: Config, s: State)
    requires ValidConfig(c) && Inv(c, s) && Enabled(c, s, SendCommit)
    ensures Inv(c, Do(c, s, SendCommit))
  {
    hide Window, SentFor, Covered, SafeToken, ItemsOk, AllApplied, CommitsComplete, Following, ValidEntry, TokenOf;
    var u, p := s.session, s.session.producer;
    var item := Commit(p.max, CommitLsn(TokenOf(p.max)));
    forall t | 0 <= t < |c.tables|
      ensures SentFor(u.sent, t) == Window(s.log, t, u.base, p.max, |s.log|)
      ensures SentFor(u.sent + [item], t) == SentFor(u.sent, t)
      ensures SentFor(u.sent, t) <= Window(s.log, t, u.base, s.clock, |s.log|)
    {
      SentForSnoc(u.sent, item, t);
      WindowGrows(s.log, t, u.base, p.max, s.clock, |s.log|);
      assert SentFor(u.sent, t) + [] == SentFor(u.sent, t);
    }
    AppendKeeps(c, s, item, Polling(p.max));
  }

  // ----- the consumer -----

  lemma MoreApplied(c: Config, s: State, applied: set<nat>, hi: nat, token: Option<string>, done: seq<Item>)
    requires s.applied <= applied
    ensures Covered(c, s.log, s.applied, hi) ==> Covered(c, s.log, applied, hi)
    ensures SafeToken(c, s.log, s.clock, s.applied, token) ==> SafeToken(c, s.log, s.clock, applied, token)
    ensures AllApplied(done, s.applied) ==> AllApplied(done, applied)
  {
    hide LsnOf, Forwarded;
  }

  /** A step of the consumer: the source, the channel's history and the producer stay as they are. */
  lemma ConsumerMoves(c: Config, s: State, s': State)
    requires ValidConfig(c) && Inv(c, s) && s.session.Up? && s'.session.Up?
    requires s' == s.(target := s'.target, applied := s'.applied, session := s.session.(taken := s'.session.taken,
      done := s'.session.done, running := s'.session.running, token := s'.session.token, synced := s'.session.synced))
    requires s.applied <= s'.applied && AppliedAfterStart(c, s.log, s'.applied)
    requires var u := s'.session;
      && u.done <= u.taken <= |u.sent| && s.session.taken <= u.taken && (u.running ==> u.done == u.taken)
      && SafeToken(c, s.log, s.clock, s'.applied, u.token)
      && u.token == TokenAfter(s.durable, u.sent[..u.done])
      && AllApplied(u.sent[..u.done], s'.applied)
      && (u.synced ==> Following(c, s.log, s'.target, u.base, u.sent[..u.done]))
    ensures Inv(c, s')
  {
    hide Covered, SafeToken, ItemsOk, AllApplied, CommitsComplete, SentInOrder, ProducerOk, Following, ValidLog,
      AppliedAfterStart;
    MoreApplied(c, s, s'.applied, s.session.base, s.durable, []);
  }

  /** Once everything before a commit token was applied, the token covers all changes up to it. */
  lemma CommitCovers(c: Config, s: State)
    requires ValidConfig(c) && Inv(c, s) && s.session.Up?
    requires s.session.done < |s.session.sent| && s.session.sent[s.session.done].Commit?
    ensures Covered(c, s.log, s.applied, s.session.sent[s.session.done].lsn)
  {
    hide Window, SentFor, SafeToken, ItemsOk, SentInOrder, ProducerOk, Following, ValidEntry;
    var u := s.session;
    var lsn := u.sent[u.done].lsn;
    forall i | 0 <= i < |s.log| && c.start < s.log[i].lsn <= lsn && Forwarded(s.log[i])
      ensures i in s.applied
    {
      if u.base < s.log[i].lsn {
        var t := s.log[i].table;
        WindowMember(s.log, t, u.base, lsn, |s.log|, i);
        var j := SentForMember(u.sent[..u.done], t, i);
        assert u.sent[..u.done][j].index in s.applied;
      }
    }
  }

  /** The message the consumer is about to act on is well formed. */
  lemma HeadItem(c: Config, s: State)
    requires ValidConfig(c) && Inv(c, s) && Receives(s.session)
    ensures var u := s.session; var item := u.sent[u.taken];
      && u.done == u.taken
      && ItemOk(c, s.log, s.clock, u.base, item)
      && (item.Change? <==> !item.event.CommitLsn?)
      && (item.Change? ==> item.event.table == c.tables[item.table].name)
      && u.sent[..u.done + 1] == u.sent[..u.done] + [item]
      && AppliedAfterStart(c, s.log, s.applied + Origin(item))
  {
    hide Covered, SafeToken, AllApplied, CommitsComplete, SentInOrder, ProducerOk, Following, ValidLog, TokenOf;
    assert ItemOk(c, s.log, s.clock, s.session.base, s.session.sent[s.session.taken]);
  }

  lemma FollowingSkips(c: Config, log: seq<Entry>, target: map<string, seq<Row>>, base: nat, done: seq<Item>,
                       item: Item)
    requires ValidConfig(c) && item.Commit? && Following(c, log, target, base, done)
    ensures Following(c, log, target, base, done + [item])
  {
    hide SentFor, TableFollows;
    forall t | 0 <= t < |c.tables|
      ensures TableFollows(c, log, target, base, t, SentFor(done + [item], t))
    {
      SentForSnoc(done, item, t);
    }
  }

  lemma TakeCommitOk(c: Config, s: State)
    requires ValidConfig(c) && Inv(c, s) && Enabled(c, s, TakeCommit)
    ensures Inv(c, Do(c, s, TakeCommit))
  {
    hide LsnOf, TokenOf, Covered, CommitsComplete, SentInOrder, ProducerOk, Following, AppliedAfterStart, ItemsOk,
      ValidEntry;
    var s' := Do(c, s, TakeCommit);
    var u := s.session;
    HeadItem(c, s);
    var item := u.sent[u.taken];
    CommitCovers(c, s);
    TokenOfLsn(item.lsn);
    assert SafeToken(c, s.log, s.clock, s.applied, s'.session.token);
    if u.synced { FollowingSkips(c, s.log, s.target, u.base, u.sent[..u.done], item); }
    ConsumerMoves(c, s, s');
  }

  /** Replaying the next change of a table's window on the target keeps the table in step. */
  lemma TableAdvances(c: Config, log: seq<Entry>, clock: nat, target: map<string, seq<Row>>, base: nat, t: nat,
                      done: seq<nat>, i: nat)
    requires ValidConfig(c) && ValidLog(c, log, clock) && c.start <= base <= clock && t < |c.tables|
    requires TableFollows(c, log, target, base, t, done)
    requires done + [i] <= Window(log, t, base, clock, |log|)
    ensures i < |log| && log[i].table == t && Forwarded(log[i])
    ensures TableFollows(c, log,
      target[c.tables[t].name := Target.ApplyChange(c.tables[t], Rows(target, c.tables[t].name), EventOf(c, log[i]))],
      base, t, done + [i])
  {
    hide Window, Target.Represents, Target.ApplyChange, Replay, SourceState, ValidChange, SourceApply, Keyed, Forwarded;
    var w := Window(log, t, base, clock, |log|);
    assert w[|done|] == i && w[..|done|] == done;
    assert ValidEntry(c, log, i);
    ReplayedBefore(c.tables[t], c.init[t], log, t, c.start, base, clock, |done|);
    var m := SourceState(c.tables[t], c.init[t], log, t, c.start, log[i].lsn, i);
    ApplyFollowsSource(c.tables[t], Rows(target, c.tables[t].name), m, log[i]);
    SkipNothing(c.tables[t], ImageAt(c, log, t, base), log, done, i);
  }

  lemma NextOfWindow(c: Config, s: State)
    requires ValidConfig(c) && Inv(c, s) && Receives(s.session) && s.session.sent[s.session.taken].Change?
    ensures var u := s.session; var item := u.sent[u.taken];
      && item.table < |c.tables|
      && SentFor(u.sent[..u.done], item.table) + [item.index] <= Window(s.log, item.table, u.base, s.clock, |s.log|)
  {
    hide Covered, SafeToken, AllApplied, CommitsComplete, ProducerOk, Following, ValidLog, ItemsOk, SentFor, Window;
    HeadItem(c, s);
    var u := s.session;
    var item := u.sent[u.taken];
    SentForSnoc(u.sent[..u.done], item, item.table);
    SentForPrefix(u.sent, u.done + 1, item.table);
  }

  lemma OtherTable(c: Config, log: seq<Entry>, target: map<string, seq<Row>>, base: nat, t: nat, w: seq<nat>,
                   name: string, rows: seq<Row>)
    requires ValidConfig(c) && t < |c.tables| && c.tables[t].name != name && TableFollows(c, log, target, base, t, w)
    ensures TableFollows(c, log, target[name := rows], base, t, w)
  {
  }

  /** Applying one message moves exactly its own table one change ahead. */
  lemma ApplyFollows(c: Config, s: State)
    requires ValidConfig(c) && Inv(c, s) && Enabled(c, s, Apply) && s.session.synced
    ensures var u := s.session;
      Following(c, s.log, Applied(c, s.target, u.sent[u.taken].event), u.base, u.sent[..u.done + 1])
  {
    hide SentFor, TableFollows, Target.ApplyChange, Window, EventOf, Covered, SafeToken, ItemsOk, CommitsComplete,
      SentInOrder, ProducerOk, ValidLog, Lookup, AllApplied, AppliedAfterStart, Keyed;
    HeadItem(c, s);
    NextOfWindow(c, s);
    var u := s.session;
    var item := u.sent[u.taken];
    LookupFinds(c.tables, item.table);
    TableAdvances(c, s.log, s.clock, s.target, u.base, item.table, SentFor(u.sent[..u.done], item.table), item.index);
    var name := c.tables[item.table].name;
    var rows := Target.ApplyChange(c.tables[item.table], Rows(s.target, name), item.event);
    var done, target := u.sent[..u.done + 1], s.target[name := rows];
    forall t | 0 <= t < |c.tables|
      ensures TableFollows(c, s.log, target, u.base, t, SentFor(done, t))
    {
      SentForSnoc(u.sent[..u.done], item, t);
      if t != item.table {
        OtherTable(c, s.log, s.target, u.base, t, SentFor(u.sent[..u.done], t), name, rows);
      }
    }
  }

  lemma ApplyOk(c: Config, s: State)
    requires ValidConfig(c) && Inv(c, s) && Enabled(c, s, Apply)
    ensures Inv(c, Do(c, s, Apply))
  {
    hide Covered, SafeToken, ItemsOk, CommitsComplete, SentInOrder, ProducerOk, Following, ValidLog,
      AppliedAfterStart, Applied;
    var s' := Do(c, s, Apply);
    var u := s.session;
    HeadItem(c, s);
    if u.synced { ApplyFollows(c, s); }
    MoreApplied(c, s, s'.applied, u.base, u.token, u.sent[..u.done]);
    ConsumerMoves(c, s, s');
  }

  lemma ApplyFailsOk(c: Config, s: State, took: bool)
    requires ValidConfig(c) && Inv(c, s) && Enabled(c, s, ApplyFails(took))
    ensures Inv(c, Do(c, s, ApplyFails(took)))
  {
    hide Covered, SafeToken, ItemsOk, AllApplied, CommitsComplete, SentInOrder, ProducerOk, Following, ValidLog,
      AppliedAfterStart, Applied;
    var s' := Do(c, s, ApplyFails(took));
    var u := s.session;
    HeadItem(c, s);
    MoreApplied(c, s, s'.applied, u.base, u.token, u.sent[..u.done]);
    ConsumerMoves(c, s, s');
  }

  // ----- every step, every run -----

  lemma StepKeepsInv(c: Config, s: State, step: Step)
    requires ValidConfig(c) && Inv(c, s) && Enabled(c, s, step)
    ensures Inv(c, Do(c, s, step))
  {
    hide Covered, SafeToken, ItemsOk, AllApplied, CommitsComplete, SentInOrder, Following, ValidLog, AppliedAfterStart,
      Applied, Window, SentFor, InStep;
    match step
    case Grow(entries, clock) => GrowOk(c, s, entries, clock);
    case Start => StartOk(c, s);
    case Poll => ProducerMoves(c, s, Scanning(s.session.producer.last, s.clock, 0, []));
    case Query => QueryOk(c, s);
    case Send => SendOk(c, s);
    case SendCommit => SendCommitOk(c, s);
    case ProducerEnds => ProducerMoves(c, s, Returned);
    case TakeCommit => TakeCommitOk(c, s);
    case Apply => ApplyOk(c, s);
    case ApplyFails(took) => ApplyFailsOk(c, s, took);
    case Stop => ConsumerMoves(c, s, Do(c, s, step));
    case Drained => ConsumerMoves(c, s, Do(c, s, step));
    case Finish(_) =>
    case Crash =>
  }

  lemma {:induction false} RunKeepsInv(c: Config, s: State, steps: seq<Step>, s': State)
    requires ValidConfig(c) && Inv(c, s) && Run(c, s, steps, s')
    ensures Inv(c, s')
    decreases |steps|
  {
    hide Inv, Enabled, Do;
    if steps != [] {
      StepKeepsInv(c, s, steps[0]);
      RunKeepsInv(c, Do(c, s, steps[0]), steps[1..], s');
    }
  }

  lemma Reachable(c: Config, s0: State, steps: seq<Step>, s: State)
    requires ValidConfig(c) && Initial(c, s0) && Run(c, s0, steps, s)
    ensures Inv(c, s)
  {
    hide Run, ValidLog;
    assert Inv(c, s0);
    RunKeepsInv(c, s0, steps, s);
  }

  // ----- main results -----

  /** The poll loop opens a window exactly when the source has moved past the last one. */
  lemma PollsExactlyWhenAhead(c: Config, s: State)
    requires ValidConfig(c) && Inv(c, s) && s.session.Up? && s.session.producer.Polling?
    ensures Enabled(c, s, Poll) <==> s.session.producer.last < s.clock
  {
    hide Covered, SafeToken, ItemsOk, AllApplied, CommitsComplete, SentInOrder, Following, ValidEntry, ToBE, Window,
      SentFor;
    var last := s.session.producer.last;
    FromBEToBE(last, LSN_BYTES);
    FromBEToBE(s.clock, LSN_BYTES);
    Lsn.LessIsNumeric(ToBE(last, LSN_BYTES), ToBE(s.clock, LSN_BYTES));
  }

  /**
   Nothing but a full channel holds the machine up: in every reachable state a restart can read its
   token, the source can go on with its window while there is room, and a waiting message can be acted on.
   */
  lemma NeverStuck(c: Config, s0: State, steps: seq<Step>, s: State)
    requires ValidConfig(c) && Initial(c, s0) && Run(c, s0, steps, s)
    ensures s.session.Down? ==> Enabled(c, s, Start)
    ensures s.session.Up? && s.session.producer.Scanning? && HasRoom(s.session) ==>
      Enabled(c, s, Query) || Enabled(c, s, Send) || Enabled(c, s, SendCommit)
    ensures Receives(s.session) ==> Enabled(c, s, TakeCommit) || Enabled(c, s, Apply)
  {
    hide Run, ValidLog, LsnOf, Forwarded, Covered, ItemsOk, AllApplied, CommitsComplete, SentInOrder, Following,
      AppliedAfterStart, SentFor, Window;
    Reachable(c, s0, steps, s);
    if s.session.Up? && s.session.producer.Scanning? && s.session.producer.pending != [] {
      NextPending(c, s);
    }
  }

  /**
   No gap: in every run, a resume token on disk names an LSN up to which every forwarded change
   after the starting LSN has reached the target; and nothing at or before it ever does.
   */
  lemma DurableTokenCoversAllChanges(c: Config, s0: State, steps: seq<Step>, s: State)
    requires ValidConfig(c) && Initial(c, s0) && Run(c, s0, steps, s)
    ensures s.durable.Some? ==>
      && LsnOf(s.durable.value).Ok?
      && forall i ::
           0 <= i < |s.log| && c.start < s.log[i].lsn <= LsnOf(s.durable.value).value && Forwarded(s.log[i]) ==>
             i in s.applied
    ensures forall i :: i in s.applied ==> i < |s.log| && c.start < s.log[i].lsn
  {
    hide Run, ValidLog, LsnOf, Forwarded;
    Reachable(c, s0, steps, s);
  }

  /**
   Meaning is preserved: in every run, when the consumer has just processed the commit token of an
   LSN in a session that began in step with the source and met no failed statement, every target
   table equals its source table at that LSN.
   */
  lemma InStepAtEveryCommit(c: Config, s0: State, steps: seq<Step>, s: State)
    requires ValidConfig(c) && Initial(c, s0) && Run(c, s0, steps, s)
    requires s.session.Up? && s.session.synced
    requires 0 < s.session.done <= |s.session.sent| && s.session.sent[s.session.done - 1].Commit?
    ensures InStep(c, s.log, s.target, s.session.sent[s.session.done - 1].lsn)
  {
    hide Run, Inv, ValidConfig, Initial, TableFollows, Target.Represents, ImageAt, Rows;
    Reachable(c, s0, steps, s);
    var u := s.session;
    forall t | 0 <= t < |c.tables|
      ensures Target.Represents(c.tables[t], Rows(s.target, c.tables[t].name),
                                ImageAt(c, s.log, t, u.sent[u.done - 1].lsn))
    {
      TableInStep(c, s, t);
    }
  }

  lemma TableInStep(c: Config, s: State, t: nat)
    requires ValidConfig(c) && Inv(c, s) && t < |c.tables|
    requires s.session.Up? && s.session.synced
    requires 0 < s.session.done <= |s.session.sent| && s.session.sent[s.session.done - 1].Commit?
    ensures Target.Represents(c.tables[t], Rows(s.target, c.tables[t].name),
                              ImageAt(c, s.log, t, s.session.sent[s.session.done - 1].lsn))
  {
    hide Window, SentFor, Replay, SourceState, Target.Represents, Covered, SafeToken, SentInOrder, ProducerOk, Keyed,
      AppliedAfterStart;
    var u := s.session;
    var item := u.sent[u.done - 1];
    CommitBound(c, s, u.done - 1);
    assert u.sent[..u.done] == u.sent[..u.done - 1] + [item];
    SentForSnoc(u.sent[..u.done - 1], item, t);
    assert TableFollows(c, s.log, s.target, u.base, t, SentFor(u.sent[..u.done], t));
    CatchUp(c.tables[t], c.init[t], s.log, t, c.start, u.base, item.lsn, |s.log|);
  }

  /** In every run the channel holds at most 64 messages, and the source sends only when it holds fewer. */
  lemma ChannelBounded(c: Config, s0: State, steps: seq<Step>, s: State)
    requires ValidConfig(c) && Initial(c, s0) && Run(c, s0, steps, s) && s.session.Up?
    ensures s.session.taken <= |s.session.sent| <= s.session.taken + 64
    ensures Enabled(c, s, Send) || Enabled(c, s, SendCommit) ==> |s.session.sent| < s.session.taken + 64
  {
    hide Run, ValidLog, Covered, SafeToken, ItemsOk, AllApplied, CommitsComplete, SentInOrder, ProducerOk, Following,
      AppliedAfterStart, TokenAfter;
    Reachable(c, s0, steps, s);
  }
}
