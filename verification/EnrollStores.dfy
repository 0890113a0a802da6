/** The stores behind key enrollment: pending keys of handshakes (internal/sshproxy/server.go), enrollment
    tokens (internal/sshenroll/token.go), the ssh_keys table (internal/sshkey/store.go), and the
    handlers that join them (internal/sshenroll/handlers.go). Clocks are nanoseconds. */
module EnrollStores {
  import opened Basics
  import opened Text

  const PENDING_TTL := 10 * SECOND
  const TOKEN_TTL := 600 * SECOND

  type Sid = string
  type Token = string
  type Fingerprint = string

  datatype PublicKey = PublicKey(keyType: string, blob: seq<byte>)

  /** SHA-256 in OpenSSH form; nothing about it is assumed. */
  type Hash = seq<byte> -> Fingerprint

  datatype Pending = Pending(fingerprint: Fingerprint, keyType: string, blob: seq<byte>, storedAt: int)

  datatype Enrollment = Enrollment(fingerprint: Fingerprint, keyType: string, publicKey: seq<byte>, expiresAt: int)

  /** A row of ssh_keys; createdAt is in seconds. */
  datatype KeyRow = KeyRow(
    userId: int, fingerprint: Fingerprint, keyType: string, publicKey: seq<byte>, keyLabel: string, createdAt: int)

  type Pendings = map<Sid, Pending>
  type Tokens = map<Token, Enrollment>
  type Keys = map<Fingerprint, KeyRow>

  // The pending map

  /** What KeyLookup.Get returned to the publickey callback. */
  datatype KeyLookup = Found(row: KeyRow) | Unknown | LookupFailed

  function AfterOffer(hash: Hash, pending: Pendings, sid: Sid, key: PublicKey, found: KeyLookup, now: int): Pendings {
    match found
    case Found(row) => if row.fingerprint == hash(key.blob) then pending - {sid} else pending
    case Unknown => pending[sid := Pending(hash(key.blob), key.keyType, key.blob, now)]
    case LookupFailed => pending
  }

  predicate Stale(p: Pending, now: int) { now - p.storedAt > PENDING_TTL }

  function FreshPending(pending: Pendings, now: int): Pendings {
    map sid | sid in pending && !Stale(pending[sid], now) :: pending[sid]
  }

  datatype AuthResult = Authenticated(userId: int, fingerprint: Fingerprint) | Refused

  class SshServer {
    const hash: Hash
    var pending: Pendings

    constructor (hash: Hash)
      ensures this.hash == hash && pending == map[]
    {
      this.hash := hash;
      pending := map[];
    }

    /** A known key authenticates and forgets the handshake's unknown one; an unknown key replaces it. */
    method PublicKeyCallback(sid: Sid, key: PublicKey, found: KeyLookup, now: int) returns (r: AuthResult)
      modifies this
      ensures pending == AfterOffer(hash, old(pending), sid, key, found, now)
      ensures r.Authenticated? <==> found.Found? && found.row.fingerprint == hash(key.blob)
      ensures r.Authenticated? ==> r.userId == found.row.userId && r.fingerprint == hash(key.blob) && sid !in pending
      ensures found.Unknown? ==>
        sid in pending && pending[sid] == Pending(hash(key.blob), key.keyType, key.blob, now)
      ensures !found.Unknown? && !r.Authenticated? ==> pending == old(pending)
      ensures pending - {sid} == old(pending) - {sid}
    {
      var fp := hash(key.blob);
      match found {
        case Found(row) =>
          if row.fingerprint != fp {
            return Refused;
          }
          pending := pending - {sid};
          r := Authenticated(row.userId, fp);
        case LookupFailed =>
          r := Refused;
        case Unknown =>
          pending := pending[sid := Pending(fp, key.keyType, key.blob, now)];
          r := Refused;
      }
    }

    method SweepPending(now: int)
      modifies this
      ensures pending == FreshPending(old(pending), now)
      ensures forall sid :: sid in old(pending) ==>
        if now - old(pending)[sid].storedAt <= 10 * SECOND then sid in pending && pending[sid] == old(pending)[sid]
        else sid !in pending
    {
      var todo := pending.Keys;
      while todo != {}
        invariant todo <= pending.Keys <= old(pending).Keys
        invariant forall sid :: sid in pending ==> pending[sid] == old(pending)[sid]
        invariant forall sid :: sid in old(pending) && sid !in todo ==>
          (sid in pending <==> !Stale(old(pending)[sid], now))
        decreases todo
      {
        var sid :| sid in todo;
        todo := todo - {sid};
        if now - pending[sid].storedAt > PENDING_TTL {
          pending := pending - {sid};
        }
      }
    }

    /** The first half of the keyboard-interactive callback: sweep, then take this handshake's record. */
    method TakePending(sid: Sid, now: int) returns (r: Option<Pending>)
      modifies this
      ensures pending == FreshPending(old(pending), now) - {sid}
      ensures r == if sid in old(pending) && now - old(pending)[sid].storedAt <= 10 * SECOND
                   then Some(old(pending)[sid]) else None
      ensures sid !in pending
    {
      SweepPending(now);
      if sid !in pending {
        return None;
      }
      r := Some(pending[sid]);
      pending := pending - {sid};
    }
  }

  // Tokens

  predicate Expired(e: Enrollment, now: int) { now >= e.expiresAt }

  function LiveTokens(tokens: Tokens, now: int): Tokens {
    map t | t in tokens && !Expired(tokens[t], now) :: tokens[t]
  }

  function WithToken(tokens: Tokens, token: Token, p: Pending, sweepAt: int, now: int): Tokens {
    LiveTokens(tokens, sweepAt)[token := Enrollment(p.fingerprint, p.keyType, p.blob, now + TOKEN_TTL)]
  }

  datatype TokenResult = Ok(enrollment: Enrollment) | TokenNotFound | TokenExpired

  class TokenStore {
    var tokens: Tokens

    constructor ()
      ensures tokens == map[]
    {
      tokens := map[];
    }

    /** `token` is the random value just generated; the two clocks are the sweep's and the entry's. */
    method Mint(token: Token, p: Pending, sweepAt: int, now: int)
      modifies this
      ensures tokens == WithToken(old(tokens), token, p, sweepAt, now)
      ensures token in tokens && tokens[token] == Enrollment(p.fingerprint, p.keyType, p.blob, now + 600 * SECOND)
      ensures forall t :: t in old(tokens) && t != token && sweepAt < old(tokens)[t].expiresAt ==>
        t in tokens && tokens[t] == old(tokens)[t]
    {
      Sweep(sweepAt);
      tokens := tokens[token := Enrollment(p.fingerprint, p.keyType, p.blob, now + TOKEN_TTL)];
    }

    method Peek(token: Token, now: int) returns (r: TokenResult)
      ensures r.TokenNotFound? <==> token !in tokens
      ensures r.Ok? <==> token in tokens && now < tokens[token].expiresAt
      ensures r.Ok? ==> r.enrollment == tokens[token]
    {
      if token !in tokens {
        return TokenNotFound;
      }
      if !(now < tokens[token].expiresAt) {
        return TokenExpired;
      }
      r := Ok(tokens[token]);
    }

    /** The entry is gone afterwards whatever the answer, so a second Consume cannot succeed. */
    method Consume(token: Token, now: int) returns (r: TokenResult)
      modifies this
      ensures tokens == old(tokens) - {token}
      ensures r.TokenNotFound? <==> token !in old(tokens)
      ensures r.Ok? <==> token in old(tokens) && now < old(tokens)[token].expiresAt
      ensures r.Ok? ==> r.enrollment == old(tokens)[token]
    {
      if token !in tokens {
        return TokenNotFound;
      }
      var e := tokens[token];
      tokens := tokens - {token};
      if !(now < e.expiresAt) {
        return TokenExpired;
      }
      r := Ok(e);
    }

    method Sweep(now: int)
      modifies this
      ensures tokens == LiveTokens(old(tokens), now)
      ensures forall t :: t in old(tokens) ==>
        if now < old(tokens)[t].expiresAt then t in tokens && tokens[t] == old(tokens)[t] else t !in tokens
    {
      var todo := tokens.Keys;
      while todo != {}
        invariant todo <= tokens.Keys <= old(tokens).Keys
        invariant forall t :: t in tokens ==> tokens[t] == old(tokens)[t]
        invariant forall t :: t in old(tokens) && t !in todo ==> (t in tokens <==> !Expired(old(tokens)[t], now))
        decreases todo
      {
        var t :| t in todo;
        todo := todo - {t};
        if !(now < tokens[t].expiresAt) {
          tokens := tokens - {t};
        }
      }
    }
  }

  // Keys

  /** The id and the clock of a new row, as its caller is told them. */
  datatype AddResult = Added(id: int, createdAt: int) | FingerprintTaken | AddFailed

  predicate HasRow(rows: map<int, KeyRow>, fp: Fingerprint) { exists id :: id in rows && rows[id].fingerprint == fp }

  lemma HasRowFrom(rows: map<int, KeyRow>, more: map<int, KeyRow>, fp: Fingerprint)
    requires HasRow(rows, fp)
    requires forall id :: id in rows && rows[id].fingerprint == fp ==> id in more && more[id] == rows[id]
    ensures HasRow(more, fp)
  {
    var id :| id in rows && rows[id].fingerprint == fp;
    assert id in more && more[id].fingerprint == fp;
  }

  /** The ssh_keys table: rows under an id that is never reused, fingerprints unique.
      `contents` is the table as its readers see it, by fingerprint. */
  class KeyStore {
    var rows: map<int, KeyRow>
    var nextId: int
    ghost var contents: Keys

    constructor ()
      ensures Valid() && contents == map[]
    {
      rows := map[];
      nextId := 1;
      contents := map[];
    }

    /** The unique constraint makes the rows and the view by fingerprint the same thing. */
    ghost predicate Valid()
      reads this
    {
      && (forall id :: id in rows ==> id < nextId)
      && (forall a, b :: a in rows && b in rows && rows[a].fingerprint == rows[b].fingerprint ==> a == b)
      && (forall id :: id in rows ==> rows[id].fingerprint in contents && contents[rows[id].fingerprint] == rows[id])
      && (forall fp :: fp in contents ==> HasRow(rows, fp))
    }

    /** `dbUp` is whether the database carries the insert out at all. */
    method Add(
      userId: int, fp: Fingerprint, keyType: string, publicKey: seq<byte>, keyLabel: string, now: int, dbUp: bool)
      returns (r: AddResult)
      requires Valid()
      modifies this
      ensures Valid()
      ensures r.AddFailed? <==> !dbUp
      ensures r.FingerprintTaken? <==> dbUp && fp in old(contents)
      ensures !r.Added? ==> rows == old(rows) && contents == old(contents)
      ensures r.Added? ==>
        var row := KeyRow(userId, fp, keyType, publicKey, keyLabel, Unix(now));
        && r.createdAt == now && r.id !in old(rows) && rows == old(rows)[r.id := row]
        && contents == old(contents)[fp := row]
    {
      if !dbUp {
        return AddFailed;
      }
      if HasRow(rows, fp) {
        return FingerprintTaken;
      }
      var row := KeyRow(userId, fp, keyType, publicKey, keyLabel, Unix(now));
      r := Added(nextId, now);
      rows := rows[nextId := row];
      contents := contents[fp := row];
      assert HasRow(rows, fp) by { assert nextId in rows && rows[nextId] == row; }
      forall other | other in contents && other != fp
        ensures HasRow(rows, other)
      {
        HasRowFrom(old(rows), rows, other);
      }
      nextId := nextId + 1;
    }

    method Get(fp: Fingerprint) returns (r: Option<KeyRow>)
      requires Valid()
      ensures r.Some? <==> fp in contents
      ensures r.Some? ==> r.value == contents[fp]
    {
      if id :| id in rows && rows[id].fingerprint == fp {
        r := Some(rows[id]);
      } else {
        r := None;
      }
    }

    method Remove(fp: Fingerprint)
      requires Valid()
      modifies this
      ensures Valid() && contents == old(contents) - {fp}
    {
      rows := map id | id in rows && rows[id].fingerprint != fp :: rows[id];
      contents := contents - {fp};
      forall other | other in contents
        ensures HasRow(rows, other)
      {
        HasRowFrom(old(rows), rows, other);
      }
    }
  }

  // Handlers

  /** How far the request gets with its cookie, its session and its user row. */
  datatype Visitor = NoCookie | NoSession | NoUser | SignedIn(userId: int)

  datatype Page =
    | RedirectToLogin | InvalidLink | KeyTaken | Success(fingerprint: Fingerprint) | StartPage(fingerprint: Fingerprint)

  /** What a key's label keeps of the User-Agent header, at most 64 bytes. */
  function ShortUserAgent(ua: string): (short: string)
    ensures 0 < |short| <= 64
    ensures Trim(ua) != "" ==> short <= Trim(ua) && (|short| == 64 || short == Trim(ua))
    ensures Trim(ua) == "" ==> short == "unknown"
  {
    var trimmed := Trim(ua);
    if trimmed == "" then "unknown" else if |trimmed| > 64 then trimmed[..64] else trimmed
  }

  class Handlers {
    const tokens: TokenStore
    const keys: KeyStore

    constructor (tokens: TokenStore, keys: KeyStore)
      ensures this.tokens == tokens && this.keys == keys
    {
      this.tokens := tokens;
      this.keys := keys;
    }

    /** Showing the fingerprint spends nothing. */
    method HandleStart(token: Token, now: int) returns (page: Page)
      ensures page == if token in tokens.tokens && now < tokens.tokens[token].expiresAt
                      then StartPage(tokens.tokens[token].fingerprint) else InvalidLink
    {
      var r := tokens.Peek(token, now);
      page := if r.Ok? then StartPage(r.enrollment.fingerprint) else InvalidLink;
    }

    /** HandleComplete without interference. A visitor who is not signed in spends nothing; otherwise
        the token is gone, and the page says Success exactly when the key is the visitor's afterwards.
        `ua` is the User-Agent header, `addAt` the key store's clock. */
    method HandleComplete(
      token: Token, visitor: Visitor, ua: string, now: int, addAt: int, addUp: bool, lookupUp: bool)
      returns (page: Page)
      requires keys.Valid()
      modifies tokens, keys
      ensures keys.Valid()
      ensures !visitor.SignedIn? ==> tokens.tokens == old(tokens.tokens) && keys.contents == old(keys.contents)
      ensures page.RedirectToLogin? <==> visitor.NoCookie? || visitor.NoSession?
      ensures visitor.NoUser? ==> page.InvalidLink?
      ensures visitor.SignedIn? ==> tokens.tokens == old(tokens.tokens) - {token}
      ensures visitor.SignedIn? ==>
        var live := token in old(tokens.tokens) && now < old(tokens.tokens)[token].expiresAt;
        if !live || !addUp then page.InvalidLink? && keys.contents == old(keys.contents)
        else
          var e := old(tokens.tokens)[token];
          var taken := e.fingerprint in old(keys.contents);
          var keyLabel := "enrolled from " + ShortUserAgent(ua);
          var row := KeyRow(visitor.userId, e.fingerprint, e.keyType, e.publicKey, keyLabel, Unix(addAt));
          && keys.contents == (if taken then old(keys.contents) else old(keys.contents)[e.fingerprint := row])
          && (page == Success(e.fingerprint) <==>
                keys.contents[e.fingerprint].userId == visitor.userId && (taken ==> lookupUp))
          && (page.Success? || page.KeyTaken?)
    {
      if visitor.NoCookie? || visitor.NoSession? {
        return RedirectToLogin;
      }
      if visitor.NoUser? {
        return InvalidLink;
      }
      var consumed := tokens.Consume(token, now);
      if !consumed.Ok? {
        return InvalidLink;
      }
      var e := consumed.enrollment;
      var keyLabel := "enrolled from " + ShortUserAgent(ua);
      var added := keys.Add(visitor.userId, e.fingerprint, e.keyType, e.publicKey, keyLabel, addAt, addUp);
      if added.FingerprintTaken? {
        if lookupUp {
          var existing := keys.Get(e.fingerprint);
          if existing.Some? && existing.value.userId == visitor.userId {
            return Success(e.fingerprint);
          }
        }
        return KeyTaken;
      }
      if added.AddFailed? {
        return InvalidLink;
      }
      page := Success(e.fingerprint);
    }
  }
}
