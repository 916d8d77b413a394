/**
 * The SQLite store of processed-article ids and of full-article snapshots, as two
 * in-memory tables.  Time stamps are integers (seconds); the ISO strings of the
 * source compare in the same order.  Every method takes `fault`: when it is true the
 * database call raised, the method returns its sentinel and changes nothing.
 */
module Store {
  import opened Wrappers

  /** A row of `processed_articles`, without its key. */
  datatype Record = Record(feedUrl: string, channelId: string, processedAt: int)

  /** A row of `processed_articles` as `get_processed_articles` returns it. */
  datatype Row = Row(articleId: string, record: Record)

  /** A row of `articles`, without its key `message_id`. */
  datatype Snapshot = Snapshot(
    channelId: string,
    title: Option<string>,
    content: Option<string>,
    feedUrl: Option<string>,
    createdAt: int)

  const SecondsPerDay: int := 86400

  /** `if feed_url:` filters by feed; `None` or `""` selects every row. */
  predicate FeedMatches(r: Record, feedUrl: Option<string>) {
    feedUrl.None? || feedUrl.value == [] || r.feedUrl == feedUrl.value
  }

  /** The ids a listing draws from. */
  function Candidates(processed: map<string, Record>, feedUrl: Option<string>): set<string> {
    set id | id in processed && FeedMatches(processed[id], feedUrl)
  }

  /** SQLite's `LIMIT n` on `count` rows: a negative limit means no limit. */
  function LimitCount(count: nat, limit: int): nat {
    if 0 <= limit < count then limit else count
  }

  /** The ids `DELETE ... WHERE processed_at < cutoff` removes. */
  function Stale(processed: map<string, Record>, cutoff: int): set<string> {
    set id | id in processed && processed[id].processedAt < cutoff
  }

  /** The table after that `DELETE`. */
  function Purge(processed: map<string, Record>, cutoff: int): map<string, Record> {
    map id | id in processed && processed[id].processedAt >= cutoff :: processed[id]
  }

  /** The message ids stored for a channel. */
  function ChannelRows(snapshots: map<string, Snapshot>, channelId: string): set<string> {
    set m | m in snapshots && snapshots[m].channelId == channelId
  }

  /**
   * How many of a channel's `count` rows survive `if len(rows) > limit: delete rows[limit:]`:
   * a negative limit is a Python slice from the end.
   */
  function KeepCount(count: nat, limit: int): (keep: nat)
    ensures keep <= count
    ensures 0 <= limit ==> keep == if count <= limit then count else limit
  {
    if count <= limit then count
    else if limit >= 0 then limit
    else if count + limit >= 0 then count + limit
    else 0
  }

  /** The ids of a listing. */
  function IdsOf(rows: seq<Row>): set<string> {
    set i | 0 <= i < |rows| :: rows[i].articleId
  }

  lemma IdsOfAppend(rows: seq<Row>, r: Row)
    ensures IdsOf(rows + [r]) == IdsOf(rows) + {r.articleId}
  {
    var t := rows + [r];
    assert forall i :: 0 <= i < |rows| ==> t[i] == rows[i];
    assert t[|rows|] == r;
  }

  /** Every row of a listing is the table's row for its id, and passes the feed filter. */
  predicate FromTable(rows: seq<Row>, processed: map<string, Record>, feedUrl: Option<string>) {
    forall i :: 0 <= i < |rows| ==>
      rows[i].articleId in processed && processed[rows[i].articleId] == rows[i].record
      && FeedMatches(rows[i].record, feedUrl)
  }

  /** No id is listed twice. */
  predicate DistinctIds(rows: seq<Row>) {
    forall i, j :: 0 <= i < j < |rows| ==> rows[i].articleId != rows[j].articleId
  }

  /** Newest first. */
  predicate NewestFirst(rows: seq<Row>) {
    forall i, j :: 0 <= i < j < |rows| ==> rows[i].record.processedAt >= rows[j].record.processedAt
  }

  /** No id of `rest` is newer than any listed row. */
  predicate Outranks(rows: seq<Row>, processed: map<string, Record>, rest: set<string>) {
    rest <= processed.Keys
    && forall id, i :: id in rest && 0 <= i < |rows| ==> processed[id].processedAt <= rows[i].record.processedAt
  }

  /** Appending the newest remaining row keeps a listing well formed. */
  lemma ListingStep(rows: seq<Row>, processed: map<string, Record>, feedUrl: Option<string>, remaining: set<string>, x: string)
    requires FromTable(rows, processed, feedUrl) && DistinctIds(rows) && NewestFirst(rows)
    requires Outranks(rows, processed, remaining)
    requires x in remaining && remaining <= Candidates(processed, feedUrl) && x !in IdsOf(rows)
    requires forall y :: y in remaining ==> processed[y].processedAt <= processed[x].processedAt
    ensures var t := rows + [Row(x, processed[x])];
      FromTable(t, processed, feedUrl) && DistinctIds(t) && NewestFirst(t)
      && Outranks(t, processed, remaining - {x}) && IdsOf(t) == IdsOf(rows) + {x}
  {
    var r := Row(x, processed[x]);
    IdsOfAppend(rows, r);
    FromTableAppend(rows, processed, feedUrl, r);
    DistinctAppend(rows, r);
    NewestAppend(rows, processed, remaining, x);
    OutranksAppend(rows, processed, remaining, x);
  }

  lemma FromTableAppend(rows: seq<Row>, processed: map<string, Record>, feedUrl: Option<string>, r: Row)
    requires FromTable(rows, processed, feedUrl)
    requires r.articleId in processed && processed[r.articleId] == r.record && FeedMatches(r.record, feedUrl)
    ensures FromTable(rows + [r], processed, feedUrl)
  {
    var t := rows + [r];
    assert forall i :: 0 <= i < |rows| ==> t[i] == rows[i];
  }

  lemma DistinctAppend(rows: seq<Row>, r: Row)
    requires DistinctIds(rows) && r.articleId !in IdsOf(rows)
    ensures DistinctIds(rows + [r])
  {
    var t := rows + [r];
    assert forall i :: 0 <= i < |rows| ==> t[i] == rows[i] && rows[i].articleId in IdsOf(rows);
  }

  lemma NewestAppend(rows: seq<Row>, processed: map<string, Record>, remaining: set<string>, x: string)
    requires NewestFirst(rows) && Outranks(rows, processed, remaining) && x in remaining
    ensures NewestFirst(rows + [Row(x, processed[x])])
  {
    var t := rows + [Row(x, processed[x])];
    assert forall i :: 0 <= i < |rows| ==> t[i] == rows[i];
  }

  lemma OutranksAppend(rows: seq<Row>, processed: map<string, Record>, remaining: set<string>, x: string)
    requires Outranks(rows, processed, remaining) && x in remaining
    requires forall y :: y in remaining ==> processed[y].processedAt <= processed[x].processedAt
    ensures Outranks(rows + [Row(x, processed[x])], processed, remaining - {x})
  {
    var t := rows + [Row(x, processed[x])];
    assert forall i :: 0 <= i < |rows| ==> t[i] == rows[i];
  }

  /** Purging keeps exactly the rows at or after the cutoff, unchanged. */
  lemma PurgeKeepsRecent(processed: map<string, Record>, cutoff: int)
    ensures forall id :: id in Purge(processed, cutoff) <==> id in processed && processed[id].processedAt >= cutoff
    ensures forall id :: id in Purge(processed, cutoff) ==> Purge(processed, cutoff)[id] == processed[id]
  {
  }

  /** The purged rows and the kept rows split the table. */
  lemma {:induction false} PurgePartition(processed: map<string, Record>, cutoff: int)
    ensures Purge(processed, cutoff).Keys !! Stale(processed, cutoff)
    ensures Purge(processed, cutoff).Keys + Stale(processed, cutoff) == processed.Keys
    ensures |processed| == |Purge(processed, cutoff)| + |Stale(processed, cutoff)|
  {
    var kept := Purge(processed, cutoff).Keys;
    var gone := Stale(processed, cutoff);
    assert kept + gone == processed.Keys;
    assert |kept + gone| == |kept| + |gone|;
    assert |processed| == |processed.Keys|;
  }

  /** A non-empty set of ids has one whose record is the newest. */
  lemma {:induction false} NewestExists(ids: set<string>, processed: map<string, Record>)
    requires ids != {} && ids <= processed.Keys
    ensures exists x :: x in ids && forall y :: y in ids ==> processed[y].processedAt <= processed[x].processedAt
    decreases |ids|
  {
    var x :| x in ids;
    if ids != {x} {
      var rest := ids - {x};
      NewestExists(rest, processed);
      var y :| y in rest && forall z :: z in rest ==> processed[z].processedAt <= processed[y].processedAt;
      if processed[x].processedAt <= processed[y].processedAt {
        assert forall z :: z in ids ==> processed[z].processedAt <= processed[y].processedAt;
      } else {
        assert forall z :: z in ids ==> processed[z].processedAt <= processed[x].processedAt;
      }
    }
  }

  /** A non-empty set of message ids has one whose snapshot is the oldest. */
  lemma {:induction false} OldestExists(ids: set<string>, snapshots: map<string, Snapshot>)
    requires ids != {} && ids <= snapshots.Keys
    ensures exists x :: x in ids && forall y :: y in ids ==> snapshots[x].createdAt <= snapshots[y].createdAt
    decreases |ids|
  {
    var x :| x in ids;
    if ids != {x} {
      var rest := ids - {x};
      OldestExists(rest, snapshots);
      var y :| y in rest && forall z :: z in rest ==> snapshots[y].createdAt <= snapshots[z].createdAt;
      if snapshots[y].createdAt <= snapshots[x].createdAt {
        assert forall z :: z in ids ==> snapshots[y].createdAt <= snapshots[z].createdAt;
      } else {
        assert forall z :: z in ids ==> snapshots[x].createdAt <= snapshots[z].createdAt;
      }
    }
  }

  /** Removing one of a channel's rows removes it from the channel's id set and nothing else. */
  lemma ChannelRowsRemove(snapshots: map<string, Snapshot>, channelId: string, m: string)
    requires m in ChannelRows(snapshots, channelId)
    ensures ChannelRows(snapshots - {m}, channelId) == ChannelRows(snapshots, channelId) - {m}
    ensures |ChannelRows(snapshots - {m}, channelId)| == |ChannelRows(snapshots, channelId)| - 1
  {
  }

  /** The store: `processed_articles` keyed by article id, `articles` keyed by message id. */
  class ArticleStore {
    var processed: map<string, Record>
    var snapshots: map<string, Snapshot>

    /**
     * `__init__`/`_init_db`: `CREATE TABLE IF NOT EXISTS` keeps the rows a database file
     * already holds, given here as `stored` and `storedSnapshots` (both empty for a new file).
     */
    constructor(stored: map<string, Record>, storedSnapshots: map<string, Snapshot>)
      ensures processed == stored && snapshots == storedSnapshots
    {
      processed := stored;
      snapshots := storedSnapshots;
    }

    /** `add_processed_article`: `INSERT OR REPLACE` stamped with `now`. */
    method AddProcessedArticle(articleId: string, feedUrl: string, channelId: string, now: int, fault: bool) returns (ok: bool)
      modifies this
      ensures ok == !fault
      ensures processed == if fault then old(processed) else old(processed)[articleId := Record(feedUrl, channelId, now)]
      ensures snapshots == old(snapshots)
    {
      if fault {
        return false;
      }
      processed := processed[articleId := Record(feedUrl, channelId, now)];
      return true;
    }

    /** `is_article_processed`: whether a row with this id exists. */
    method IsArticleProcessed(articleId: string, fault: bool) returns (b: bool)
      ensures b <==> !fault && articleId in processed
    {
      if fault {
        return false;
      }
      return articleId in processed;
    }

    /**
     * `get_processed_articles`: `ORDER BY processed_at DESC LIMIT limit`, over one
     * feed's rows when a non-empty `feed_url` is given.  Rows with equal time stamps
     * may come in any order.
     */
    method GetProcessedArticles(feedUrl: Option<string>, limit: int, fault: bool) returns (rows: seq<Row>)
      ensures fault ==> rows == []
      ensures !fault ==> |rows| == LimitCount(|Candidates(processed, feedUrl)|, limit)
      ensures FromTable(rows, processed, feedUrl) && DistinctIds(rows) && NewestFirst(rows)
      ensures Outranks(rows, processed, Candidates(processed, feedUrl) - IdsOf(rows))
    {
      rows := [];
      if fault {
        return;
      }
      var cands := Candidates(processed, feedUrl);
      var remaining := cands;
      while remaining != {} && (limit < 0 || |rows| < limit)
        invariant remaining <= cands
        invariant |rows| + |remaining| == |cands|
        invariant 0 <= limit ==> |rows| <= limit
        invariant cands - remaining == IdsOf(rows)
        invariant FromTable(rows, processed, feedUrl) && DistinctIds(rows) && NewestFirst(rows)
        invariant Outranks(rows, processed, remaining)
        decreases |remaining|
      {
        NewestExists(remaining, processed);
        var x :| x in remaining && forall y :: y in remaining ==> processed[y].processedAt <= processed[x].processedAt;
        ListingStep(rows, processed, feedUrl, remaining, x);
        rows := rows + [Row(x, processed[x])];
        remaining := remaining - {x};
      }
    }

    /** `cleanup_old_articles`: delete the rows older than `days` days before `now`, returning how many. */
    method CleanupOldArticles(days: int, now: int, fault: bool) returns (count: int)
      modifies this
      ensures fault ==> count == 0 && processed == old(processed)
      ensures !fault ==> processed == Purge(old(processed), now - days * SecondsPerDay)
      ensures !fault ==> count == |Stale(old(processed), now - days * SecondsPerDay)|
      ensures snapshots == old(snapshots)
    {
      if fault {
        return 0;
      }
      var cutoff := now - days * SecondsPerDay;
      count := |Stale(processed, cutoff)|;
      processed := Purge(processed, cutoff);
    }

    /**
     * `add_full_article`: upsert the snapshot stamped `now` and commit, then delete the
     * channel's rows past the first `limit` when ordered newest first and commit again.
     * Rows with equal time stamps may be evicted in any order.  `fault` is a failure
     * before the first commit; `lateFault` one after it, which leaves the upsert stored
     * and rolls back the uncommitted deletions.
     */
    method AddFullArticle(messageId: string, channelId: string, title: Option<string>, content: Option<string>,
                          feedUrl: Option<string>, now: int, limit: int, fault: bool, lateFault: bool)
      returns (ok: bool)
      modifies this
      ensures ok == (!fault && !lateFault)
      ensures processed == old(processed)
      ensures fault ==> snapshots == old(snapshots)
      ensures !fault && lateFault ==>
        snapshots == old(snapshots)[messageId := Snapshot(channelId, title, content, feedUrl, now)]
      ensures ok ==>
        var up := old(snapshots)[messageId := Snapshot(channelId, title, content, feedUrl, now)];
        (forall m :: m in snapshots ==> m in up && snapshots[m] == up[m])
        && (forall m :: m in up && up[m].channelId != channelId ==> m in snapshots)
        && |ChannelRows(snapshots, channelId)| == KeepCount(|ChannelRows(up, channelId)|, limit)
        && (forall m, k :: m in ChannelRows(up, channelId) && m !in snapshots && k in ChannelRows(snapshots, channelId)
              ==> up[m].createdAt <= up[k].createdAt)
    {
      if fault {
        return false;
      }
      var up := snapshots[messageId := Snapshot(channelId, title, content, feedUrl, now)];
      snapshots := up;
      if lateFault {
        return false;
      }
      var keep := KeepCount(|ChannelRows(up, channelId)|, limit);
      while |ChannelRows(snapshots, channelId)| > keep
        invariant forall m :: m in snapshots ==> m in up && snapshots[m] == up[m]
        invariant forall m :: m in up && up[m].channelId != channelId ==> m in snapshots
        invariant |ChannelRows(snapshots, channelId)| >= keep
        invariant processed == old(processed)
        invariant forall m, k :: (m in ChannelRows(up, channelId) && m !in snapshots && k in ChannelRows(snapshots, channelId)
                                  ==> up[m].createdAt <= up[k].createdAt)
        decreases |ChannelRows(snapshots, channelId)|
      {
        var rows := ChannelRows(snapshots, channelId);
        OldestExists(rows, snapshots);
        var oldest :| oldest in rows && forall y :: y in rows ==> snapshots[oldest].createdAt <= snapshots[y].createdAt;
        ChannelRowsRemove(snapshots, channelId, oldest);
        snapshots := snapshots - {oldest};
      }
      return true;
    }

    /** `get_full_article`: the stored row, or `None`. */
    method GetFullArticle(messageId: string, fault: bool) returns (r: Option<Snapshot>)
      ensures r == if fault || messageId !in snapshots then None else Some(snapshots[messageId])
    {
      if fault || messageId !in snapshots {
        return None;
      }
      return Some(snapshots[messageId]);
    }
  }
}
