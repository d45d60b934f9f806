/** The MongoDB connection holder (src/config/database.ts): the database-name parser
    and the connect / disconnect / getDb state machine. The driver is not modelled:
    a client is the URI it was made for, a database handle is its name, and whether
    `client.connect()` succeeds is passed in. */
module Database {
  import opened Wrappers

  const DEFAULT_DB_NAME: string := "fb-autopost"
  const NOT_CONNECTED: string := "Database not connected. Call connect() first."

  /** Characters the capture group `[^/?]` refuses. */
  predicate IsPathBreak(c: char) {
    c == '/' || c == '?'
  }

  /** The end of the run of non-break characters starting at `i`. */
  function RunEnd(s: string, i: nat): (e: nat)
    requires i <= |s|
    ensures i <= e <= |s|
    ensures forall k :: i <= k < e ==> !IsPathBreak(s[k])
    ensures e < |s| ==> IsPathBreak(s[e])
    decreases |s| - i
  {
    if i == |s| || IsPathBreak(s[i]) then i else RunEnd(s, i + 1)
  }

  /** The regex `/\/([^/?]+)(\?|$)/` matches at position `p` capturing `s[p + 1..e]`:
      a '/', a non-empty run of non-break characters, then '?' or the end of the string.
      Backtracking cannot help: a shorter run ends before another non-break character. */
  predicate MatchesAt(s: string, p: nat, e: nat) {
    && p < e <= |s|
    && s[p] == '/'
    && p + 1 < e
    && (forall k :: p + 1 <= k < e ==> !IsPathBreak(s[k]))
    && (e == |s| || s[e] == '?')
  }

  ghost predicate MatchesSomewhere(s: string, p: nat) {
    exists e :: MatchesAt(s, p, e)
  }

  /** `name` is the capture of the leftmost match, which starts at `p`. */
  ghost predicate LeftmostCapture(s: string, p: nat, name: string) {
    && MatchesAt(s, p, p + 1 + |name|)
    && s[p + 1..p + 1 + |name|] == name
    && (forall q :: 0 <= q < p ==> !MatchesSomewhere(s, q))
  }

  /** The leftmost match position at or after `p`, and where its capture ends. */
  function MatchFrom(s: string, p: nat): (r: Option<(nat, nat)>)
    requires p <= |s|
    ensures r.Some? ==> p <= r.value.0 && MatchesAt(s, r.value.0, r.value.1)
    ensures r.Some? ==> forall q :: p <= q < r.value.0 ==> !MatchesSomewhere(s, q)
    ensures r.None? ==> forall q :: p <= q <= |s| ==> !MatchesSomewhere(s, q)
    decreases |s| - p
  {
    if p == |s| then None
    else
      var e := if s[p] == '/' then RunEnd(s, p + 1) else p;
      if s[p] == '/' && p + 1 < e && (e == |s| || s[e] == '?') then Some((p, e))
      else
        assert !MatchesSomewhere(s, p) by {
          if s[p] == '/' {
            forall e': nat | MatchesAt(s, p, e') ensures false {
            }
          }
        }
        MatchFrom(s, p + 1)
  }

  /** `extractDbName(uri)`: the capture of the leftmost match, or null. */
  function ExtractDbName(uri: string): (r: Option<string>)
    ensures r.Some? ==> r.value != "" && '/' !in r.value && '?' !in r.value
    ensures r.Some? <==> exists p :: 0 <= p <= |uri| && MatchesSomewhere(uri, p)
    ensures r.Some? ==> exists p :: LeftmostCapture(uri, p, r.value)
  {
    match MatchFrom(uri, 0)
    case None => None
    case Some((p, e)) =>
      var name := uri[p + 1..e];
      assert forall k :: 0 <= k < |name| ==> name[k] == uri[p + 1 + k];
      assert MatchesSomewhere(uri, p);
      assert LeftmostCapture(uri, p, name);
      Some(name)
  }

  lemma {:induction false} RunEndAt(s: string, i: nat, e: nat)
    requires i <= e <= |s|
    requires forall k :: i <= k < e ==> !IsPathBreak(s[k])
    requires e == |s| || IsPathBreak(s[e])
    ensures RunEnd(s, i) == e
    decreases e - i
  {
    if i < e {
      RunEndAt(s, i + 1, e);
    }
  }

  /** Positions holding no '/' cannot start a match. */
  lemma {:induction false} MatchFromSkipsTo(s: string, i: nat, j: nat)
    requires i <= j <= |s|
    requires forall k :: i <= k < j ==> s[k] != '/'
    ensures MatchFrom(s, i) == MatchFrom(s, j)
    decreases j - i
  {
    if i < j {
      MatchFromSkipsTo(s, i + 1, j);
    }
  }

  const SCHEME: string := "mongodb://"

  predicate NoBreaks(s: string) {
    forall k :: 0 <= k < |s| ==> !IsPathBreak(s[k])
  }

  /** The leading `mongodb://` of a URI never starts the match. */
  lemma {:induction false} SchemeIsSkipped(host: string, rest: string)
    requires |host| > 0 && NoBreaks(host)
    requires |rest| > 0 && rest[0] == '/'
    ensures MatchFrom(SCHEME + host + rest, 0) == MatchFrom(SCHEME + host + rest, 10 + |host|)
  {
    var s := SCHEME + host + rest;
    assert forall k :: 0 <= k < 8 ==> s[k] == SCHEME[k];
    MatchFromSkipsTo(s, 0, 8);
    assert s[8] == '/' && s[9] == '/';
    assert RunEnd(s, 9) == 9;
    assert MatchFrom(s, 8) == MatchFrom(s, 9);
    assert forall k :: 10 <= k < 10 + |host| ==> s[k] == host[k - 10];
    RunEndAt(s, 10, 10 + |host|);
    assert MatchFrom(s, 9) == MatchFrom(s, 10);
    MatchFromSkipsTo(s, 10, 10 + |host|);
  }

  /** `mongodb://host/db?options` names `db`. */
  lemma ExtractDbNameWithPath(host: string, db: string, options: string)
    requires |host| > 0 && NoBreaks(host) && |db| > 0 && NoBreaks(db)
    requires options == "" || options[0] == '?'
    ensures ExtractDbName(SCHEME + host + "/" + db + options) == Some(db)
  {
    var s := SCHEME + host + "/" + db + options;
    var rest := "/" + db + options;
    assert s == SCHEME + host + rest;
    SchemeIsSkipped(host, rest);
    var p := 10 + |host|;
    assert s[p] == '/';
    assert forall k :: p + 1 <= k < p + 1 + |db| ==> s[k] == db[k - p - 1];
    var e := p + 1 + |db|;
    assert e == |s| || s[e] == '?' by {
      if options != "" {
        assert s[e] == options[0];
      }
    }
    RunEndAt(s, p + 1, e);
    assert MatchFrom(s, p) == Some((p, e));
    assert s[p + 1..e] == db;
  }

  /** A path-less `mongodb://host?options`: the host and port are taken for the name. */
  lemma ExtractDbNameWithoutPath(host: string, options: string)
    requires |host| > 0 && NoBreaks(host)
    requires options == "" || options[0] == '?'
    ensures ExtractDbName(SCHEME + host + options) == Some(host)
  {
    var s := SCHEME + host + options;
    assert forall k :: 0 <= k < 8 ==> s[k] == SCHEME[k];
    MatchFromSkipsTo(s, 0, 8);
    assert s[8] == '/' && s[9] == '/';
    assert RunEnd(s, 9) == 9;
    assert forall k :: 10 <= k < 10 + |host| ==> s[k] == host[k - 10];
    RunEndAt(s, 10, 10 + |host|);
    assert s[10..10 + |host|] == host;
  }

  /** `mongodb://host/` names nothing, so `connect` falls back to the default. */
  lemma ExtractDbNameEmptyPath(host: string)
    requires |host| > 0 && NoBreaks(host)
    ensures ExtractDbName(SCHEME + host + "/") == None
  {
    var s := SCHEME + host + "/";
    SchemeIsSkipped(host, "/");
    assert RunEnd(s, 11 + |host|) == 11 + |host|;
  }

  /** A driver client (the URI it was created with) and a database handle (its name). */
  datatype Client = Client(uri: string)
  datatype Db = Db(name: string)

  /** The two private fields of the `Database` singleton. */
  datatype Connection = Connection(client: Option<Client>, db: Option<Db>)

  /** A database is only ever held together with the client that opened it. */
  predicate Valid(c: Connection) {
    c.db.Some? ==> c.client.Some? && c.db.value.name != ""
  }

  const INITIAL: Connection := Connection(None, None)

  /** `connect()`: returns the held database when there is one; otherwise makes a client
      for `uri` (kept even when its `connect()` then fails), and on success opens the
      database named in the URI, or `fb-autopost`. */
  function Connect(c: Connection, uri: string, clientConnect: Result<()>): (r: (Connection, Result<Db>))
    requires Valid(c)
    ensures Valid(r.0)
    ensures c.db.Some? ==> r == (c, Success(c.db.value))
    ensures c.db.None? ==> r.0.client == Some(Client(uri))
    ensures c.db.None? ==> (r.1.Success? <==> clientConnect.Success?)
    ensures r.1.Success? ==> r.0.db == Some(r.1.value)
    ensures r.1.Failure? ==> r.0.db == None && r.1.error == clientConnect.error
    ensures c.db.None? && r.1.Success? ==>
      r.1.value.name == (if ExtractDbName(uri).Some? then ExtractDbName(uri).value else DEFAULT_DB_NAME)
    ensures r.1.Success? ==> r.1.value.name != ""
  {
    if c.db.Some? then (c, Success(c.db.value))
    else
      var client := Client(uri);
      match clientConnect
      case Failure(e) => (Connection(Some(client), None), Failure(e))
      case Success(_) =>
        var db := Db(ExtractDbName(uri).GetOr(DEFAULT_DB_NAME));
        (Connection(Some(client), Some(db)), Success(db))
  }

  /** `disconnect()`: closes and forgets both fields; a no-op without a client. */
  function Disconnect(c: Connection): (r: Connection)
    requires Valid(c)
    ensures Valid(r)
    ensures r.db == None
    ensures r.client == None
    ensures c.client.None? ==> r == c
  {
    if c.client.Some? then Connection(None, None) else c
  }

  /** `getDb()`: the held database, or the "not connected" error. */
  function GetDb(c: Connection): (r: Result<Db>)
    ensures r.Failure? <==> c.db.None?
    ensures r.Success? ==> c.db == Some(r.value)
    ensures r.Failure? ==> r.error == NOT_CONNECTED
  {
    match c.db
    case Some(db) => Success(db)
    case None => Failure(NOT_CONNECTED)
  }

  /** After a successful connect, `getDb` hands out the connected database. */
  lemma GetDbAfterConnect(c: Connection, uri: string, clientConnect: Result<()>)
    requires Valid(c)
    requires Connect(c, uri, clientConnect).1.Success?
    ensures GetDb(Connect(c, uri, clientConnect).0) == Connect(c, uri, clientConnect).1
  {
  }

  /** Connecting twice is connecting once: the second call returns the same database
      and creates no client, whatever its own URI and outcome. */
  lemma ConnectIsMemoised(c: Connection, uri: string, first: Result<()>, uri2: string, second: Result<()>)
    requires Valid(c)
    requires Connect(c, uri, first).1.Success?
    ensures var c1 := Connect(c, uri, first).0;
      Connect(c1, uri2, second) == (c1, Connect(c, uri, first).1)
  {
  }

  /** A failed connect leaves no database, so the next connect makes a new client. */
  lemma FailedConnectRetries(c: Connection, uri: string, e: string, uri2: string)
    requires Valid(c) && c.db.None?
    ensures var c1 := Connect(c, uri, Failure(e)).0;
      && GetDb(c1) == Failure(NOT_CONNECTED)
      && Connect(c1, uri2, Success(())).0.client == Some(Client(uri2))
  {
  }

  /** After a disconnect `getDb` throws until the next connect. */
  lemma DisconnectForgetsDb(c: Connection)
    requires Valid(c)
    ensures GetDb(Disconnect(c)) == Failure(NOT_CONNECTED)
  {
  }
}
