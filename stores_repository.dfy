/** The stores repository: the `account`, `store` and `accessToken` tables,
    the store upsert, the access-token save keyed by store, and the listing
    of a company's stores that deactivates expired ones. Times are integer
    timestamps; the current time is a parameter. */
module StoresRepository {

  import opened Wrappers

  datatype Account = Account(id: int, companyId: int, name: string, platform: string, region: string, isMain: bool)

  /** A row of `store`, keyed by `id`. */
  datatype Store = Store(id: int, companyId: int, accessTokenId: int, authTime: int, expiryTime: int,
                         name: string, platform: string, region: string, descriptions: string, status: bool)

  /** The incoming access token; `id` is the field `SaveAccessToken` reads
      and overwrites. */
  datatype AccessToken = AccessToken(id: int, accountId: int, storeId: int, accessToken: string,
                                     refreshToken: string, platform: string)

  /** A row of `accessToken`, keyed by its serial `id`. */
  datatype TokenRow = TokenRow(accountId: int, storeId: int, accessToken: string, refreshToken: string, platform: string)

  // ---- SaveStore ----

  /** The `store` table after a successful `SaveStore`: an existing store
      gets the new authorisation time, expiry time and status; a new one is
      inserted with all its fields. */
  function SavedStores(stores: map<int, Store>, s: Store): map<int, Store> {
    if s.id in stores then stores[s.id := stores[s.id].(authTime := s.authTime, expiryTime := s.expiryTime, status := s.status)]
    else stores[s.id := s]
  }

  /** After a save the store is present; when it existed only the three
      updated columns changed, and when it did not it holds exactly the
      saved fields; every other store is untouched. */
  lemma SavedStoresEffect(stores: map<int, Store>, s: Store)
    ensures var after := SavedStores(stores, s);
            s.id in after && after.Keys == stores.Keys + {s.id}
            && (forall id :: id in stores && id != s.id ==> after[id] == stores[id])
            && (s.id in stores ==>
                  after[s.id].(authTime := stores[s.id].authTime, expiryTime := stores[s.id].expiryTime,
                               status := stores[s.id].status) == stores[s.id]
                  && after[s.id].authTime == s.authTime && after[s.id].expiryTime == s.expiryTime
                  && after[s.id].status == s.status)
            && (s.id !in stores ==> after[s.id] == s)
  {
  }

  /** Saving the same store twice is the same as saving it once. */
  lemma SavedStoresIdempotent(stores: map<int, Store>, s: Store)
    ensures SavedStores(SavedStores(stores, s), s) == SavedStores(stores, s)
  {
    var once := SavedStores(stores, s);
    assert SavedStores(once, s) == once[s.id := once[s.id].(authTime := s.authTime, expiryTime := s.expiryTime, status := s.status)];
    assert once[s.id].(authTime := s.authTime, expiryTime := s.expiryTime, status := s.status) == once[s.id];
  }

  // ---- SaveAccessToken ----

  /** Serial ids start at 1 and stay below the next id, and no store has
      two tokens. */
  ghost predicate TokensValid(tokens: map<int, TokenRow>, nextId: int) {
    1 <= nextId
    && (forall id :: id in tokens ==> 1 <= id < nextId)
    && (forall a, b :: a in tokens && b in tokens && tokens[a].storeId == tokens[b].storeId ==> a == b)
  }

  /** The id of the store's token row, if it has one. */
  ghost function TokenIdFor(tokens: map<int, TokenRow>, storeId: int): (r: Option<int>)
    ensures r.Some? ==> r.value in tokens && tokens[r.value].storeId == storeId
    ensures r.None? ==> forall id :: id in tokens ==> tokens[id].storeId != storeId
  {
    if exists id :: id in tokens && tokens[id].storeId == storeId then
      var id :| id in tokens && tokens[id].storeId == storeId; Some(id)
    else None
  }

  datatype TokenStep = Lookup | Update | Insert

  /** The outcome of `SaveAccessToken`: the final `accessToken.ID`, the
      error, the table and the next serial id. The lookup overwrites the
      incoming id only when a row is found, so an incoming positive id
      takes the update path even when the store has no row. */
  datatype TokenSave = TokenSave(id: int, err: Option<string>, tokens: map<int, TokenRow>, nextId: int)

  ghost function SaveToken(tokens: map<int, TokenRow>, nextId: int, t: AccessToken,
                           tokenError: TokenStep -> Option<string>): TokenSave
  {
    if tokenError(Lookup).Some? then
      TokenSave(t.id, Some("failed to check existing access token: " + tokenError(Lookup).value), tokens, nextId)
    else
      var id := match TokenIdFor(tokens, t.storeId) case Some(found) => found case None => t.id;
      if id > 0 then
        if tokenError(Update).Some? then
          TokenSave(id, Some("failed to update access token: " + tokenError(Update).value), tokens, nextId)
        else if id !in tokens then
          TokenSave(id, Some("failed to update access token: sql: no rows in result set"), tokens, nextId)
        else
          TokenSave(id, None, tokens[id := tokens[id].(accessToken := t.accessToken, refreshToken := t.refreshToken)], nextId)
      else if tokenError(Insert).Some? then
        TokenSave(id, Some("failed to insert access token: " + tokenError(Insert).value), tokens, nextId)
      else
        TokenSave(nextId, None, tokens[nextId := TokenRow(t.accountId, t.storeId, t.accessToken, t.refreshToken, t.platform)],
                  nextId + 1)
  }

  /** Saving a token keeps every store at one token at most. */
  lemma SaveTokenValid(tokens: map<int, TokenRow>, nextId: int, t: AccessToken, tokenError: TokenStep -> Option<string>)
    requires TokensValid(tokens, nextId)
    ensures var r := SaveToken(tokens, nextId, t, tokenError); TokensValid(r.tokens, r.nextId)
  {
    if tokenError(Lookup).None? {
      var found := TokenIdFor(tokens, t.storeId);
      var id := match found case Some(f) => f case None => t.id;
      if id > 0 && tokenError(Update).None? && id in tokens {
        var after := tokens[id := tokens[id].(accessToken := t.accessToken, refreshToken := t.refreshToken)];
        assert forall k :: k in after ==> after[k].storeId == tokens[k].storeId;
      } else if id <= 0 && tokenError(Insert).None? {
        assert found.None?;
      }
    }
  }

  /** When the store already has a token row, that row's tokens are
      replaced, nothing else changes, and the id is that row's id. */
  lemma SaveTokenUpdatesExisting(tokens: map<int, TokenRow>, nextId: int, t: AccessToken,
                                 tokenError: TokenStep -> Option<string>, existing: int)
    requires TokensValid(tokens, nextId)
    requires existing in tokens && tokens[existing].storeId == t.storeId
    requires tokenError(Lookup).None? && tokenError(Update).None?
    ensures var r := SaveToken(tokens, nextId, t, tokenError);
            r.id == existing && r.err == None && r.nextId == nextId
            && r.tokens == tokens[existing := tokens[existing].(accessToken := t.accessToken, refreshToken := t.refreshToken)]
  {
  }

  /** When the store has no row and the incoming id is 0, one row is
      inserted under the next serial id, which becomes the token's id. */
  lemma SaveTokenInsertsNew(tokens: map<int, TokenRow>, nextId: int, t: AccessToken,
                            tokenError: TokenStep -> Option<string>)
    requires TokensValid(tokens, nextId)
    requires forall id :: id in tokens ==> tokens[id].storeId != t.storeId
    requires t.id == 0 && tokenError(Lookup).None? && tokenError(Insert).None?
    ensures var r := SaveToken(tokens, nextId, t, tokenError);
            r.id == nextId && r.err == None && nextId !in tokens
            && r.tokens == tokens[nextId := TokenRow(t.accountId, t.storeId, t.accessToken, t.refreshToken, t.platform)]
  {
  }

  /** As written, a store without a token row and an incoming positive id
      takes the update path: the row with that id, which belongs to another
      store, gets this store's tokens. */
  lemma SaveTokenStaleId(tokens: map<int, TokenRow>, nextId: int, t: AccessToken,
                         tokenError: TokenStep -> Option<string>)
    requires TokensValid(tokens, nextId)
    requires forall id :: id in tokens ==> tokens[id].storeId != t.storeId
    requires t.id in tokens && tokenError(Lookup).None? && tokenError(Update).None?
    ensures var r := SaveToken(tokens, nextId, t, tokenError);
            r.err == None && r.id == t.id && r.tokens[t.id].storeId != t.storeId
            && r.tokens[t.id].accessToken == t.accessToken
  {
  }

  // ---- GetStoresByCompany ----

  /** A store as listed at time `now`: inactive once its expiry is before
      `now`, otherwise as stored. */
  function Refreshed(s: Store, now: int): (r: Store)
    ensures r.(status := s.status) == s
    ensures r.status == (s.status && !(s.expiryTime < now))
  {
    if s.expiryTime < now then s.(status := false) else s
  }

  /** `rows` is what the query returns: the company's store ids, each once,
      by authorisation time, latest first. */
  ghost predicate IsQueryResult(rows: seq<int>, stores: map<int, Store>, companyId: int) {
    (forall i, j :: 0 <= i < j < |rows| ==> rows[i] != rows[j])
    && (forall i :: 0 <= i < |rows| ==> rows[i] in stores && stores[rows[i]].companyId == companyId)
    && (forall id :: id in stores && stores[id].companyId == companyId ==> id in rows)
    && (forall i, j :: 0 <= i < j < |rows| ==> stores[rows[j]].authTime <= stores[rows[i]].authTime)
  }

  /** The `store` table once the stores under `ids` have been listed. */
  function Deactivated(stores: map<int, Store>, ids: set<int>, now: int): (r: map<int, Store>)
    ensures r.Keys == stores.Keys
  {
    map id | id in stores :: if id in ids then Refreshed(stores[id], now) else stores[id]
  }

  /** The listing as returned: the stores of `rows`, refreshed, in row
      order. */
  function Listed(stores: map<int, Store>, rows: seq<int>, now: int): (r: seq<Store>)
    requires forall i :: 0 <= i < |rows| ==> rows[i] in stores
    ensures |r| == |rows|
  {
    seq(|rows|, i requires 0 <= i < |rows| => Refreshed(stores[rows[i]], now))
  }

  /** The listing holds each store of the company once, latest
      authorisation first, expired ones inactive and the others with their
      stored status. */
  lemma ListedStores(stores: map<int, Store>, rows: seq<int>, companyId: int, now: int)
    requires IsQueryResult(rows, stores, companyId)
    ensures var r := Listed(stores, rows, now);
            (forall i, j :: 0 <= i < j < |r| ==> r[j].authTime <= r[i].authTime)
            && (forall i :: 0 <= i < |r| ==>
                  (r[i].companyId == companyId
                   && (r[i].expiryTime < now ==> !r[i].status)
                   && (!(r[i].expiryTime < now) ==> r[i] == stores[rows[i]])))
  {
  }

  /** The table after a complete listing: exactly the company's expired
      stores become inactive; a second listing at the same time changes
      nothing more. */
  lemma DeactivatedStores(stores: map<int, Store>, rows: seq<int>, companyId: int, now: int)
    requires IsQueryResult(rows, stores, companyId)
    ensures var after := Deactivated(stores, (set id | id in rows), now);
            (forall id :: id in stores ==>
               after[id].status == (stores[id].status && !(stores[id].companyId == companyId && stores[id].expiryTime < now))
               && after[id].(status := stores[id].status) == stores[id])
            && Deactivated(after, (set id | id in rows), now) == after
  {
    var ids := set id | id in rows;
    var after := Deactivated(stores, ids, now);
    forall id | id in stores
      ensures Deactivated(after, ids, now)[id] == after[id]
    {
      if id in ids {
        assert Refreshed(Refreshed(stores[id], now), now) == Refreshed(stores[id], now);
      }
    }
  }

  /** The calls of `GetStoresByCompany` that can fail; per-row steps are
      keyed by the store id of the row. */
  datatype StoreStep = Query | Scan(id: int) | StatusUpdate(id: int) | RowsErr

  /** The failure of one listed row, if any: its scan, or, for an expired
      store, the status update. */
  function RowFailure(storeError: StoreStep -> Option<string>, id: int, s: Store, now: int): Option<string> {
    if storeError(Scan(id)).Some? then Some("failed to scan store: " + storeError(Scan(id)).value)
    else if s.expiryTime < now && storeError(StatusUpdate(id)).Some? then
      Some("failed to update store status: " + storeError(StatusUpdate(id)).value)
    else None
  }

  /** The index of the first failing row, or `|rows|` when none fails. */
  function FirstFailure(stores: map<int, Store>, rows: seq<int>, now: int, storeError: StoreStep -> Option<string>): (k: nat)
    requires forall i :: 0 <= i < |rows| ==> rows[i] in stores
    ensures k <= |rows|
    ensures forall i :: 0 <= i < k ==> RowFailure(storeError, rows[i], stores[rows[i]], now).None?
    ensures k < |rows| ==> RowFailure(storeError, rows[k], stores[rows[k]], now).Some?
  {
    if rows == [] then 0
    else if RowFailure(storeError, rows[0], stores[rows[0]], now).Some? then 0
    else 1 + FirstFailure(stores, rows[1..], now, storeError)
  }

  function RowSet(rows: seq<int>): set<int> {
    set id | id in rows
  }

  /** Reaching row `i` before the first failure: the loop stops there
      exactly when that row fails. */
  lemma FirstFailureAt(stores: map<int, Store>, rows: seq<int>, now: int, storeError: StoreStep -> Option<string>, i: int)
    requires forall j :: 0 <= j < |rows| ==> rows[j] in stores
    requires 0 <= i < |rows| && i <= FirstFailure(stores, rows, now, storeError)
    ensures RowFailure(storeError, rows[i], stores[rows[i]], now).Some? ==> FirstFailure(stores, rows, now, storeError) == i
    ensures RowFailure(storeError, rows[i], stores[rows[i]], now).None? ==> i + 1 <= FirstFailure(stores, rows, now, storeError)
  {
  }

  lemma RowSetStep(rows: seq<int>, i: int)
    requires 0 <= i < |rows|
    requires forall a, b :: 0 <= a < b < |rows| ==> rows[a] != rows[b]
    ensures rows[i] !in RowSet(rows[..i]) && RowSet(rows[..i + 1]) == RowSet(rows[..i]) + {rows[i]}
  {
    assert rows[..i + 1] == rows[..i] + [rows[i]];
  }

  lemma ListedStep(stores: map<int, Store>, rows: seq<int>, i: int, now: int)
    requires 0 <= i < |rows|
    requires forall j :: 0 <= j < |rows| ==> rows[j] in stores
    ensures Listed(stores, rows[..i + 1], now) == Listed(stores, rows[..i], now) + [Refreshed(stores[rows[i]], now)]
  {
  }

  /** Listing one more store refreshes just that store. */
  lemma DeactivatedStep(stores: map<int, Store>, ids: set<int>, id: int, now: int)
    requires id in stores && id !in ids
    ensures Deactivated(stores, ids + {id}, now) == Deactivated(stores, ids, now)[id := Refreshed(stores[id], now)]
  {
  }

  /** The row loop of `GetStoresByCompany` over a table `stores`: the
      stores listed, the table after the status updates, and the failure
      that stopped the loop, if any. */
  method ListRows(stores: map<int, Store>, rows: seq<int>, now: int, storeError: StoreStep -> Option<string>)
    returns (listed: seq<Store>, after: map<int, Store>, failure: Option<string>)
    requires forall i :: 0 <= i < |rows| ==> rows[i] in stores
    requires forall i, j :: 0 <= i < j < |rows| ==> rows[i] != rows[j]
    ensures var k := FirstFailure(stores, rows, now, storeError);
            after == Deactivated(stores, RowSet(rows[..k]), now)
            && (k < |rows| ==> failure == RowFailure(storeError, rows[k], stores[rows[k]], now))
            && (k == |rows| ==> failure == None && listed == Listed(stores, rows, now))
  {
    ghost var k := FirstFailure(stores, rows, now, storeError);
    listed, after := [], stores;
    for i := 0 to |rows|
      invariant i <= k
      invariant after == Deactivated(stores, RowSet(rows[..i]), now)
      invariant listed == Listed(stores, rows[..i], now)
    {
      var id := rows[i];
      FirstFailureAt(stores, rows, now, storeError, i);
      if storeError(Scan(id)).Some? {
        return listed, after, Some("failed to scan store: " + storeError(Scan(id)).value);
      }
      ghost var before := after;
      var store := after[id];
      assert store == stores[id] by {
        RowSetStep(rows, i);
      }
      if store.expiryTime < now {
        store := store.(status := false);
        if storeError(StatusUpdate(id)).Some? {
          return listed, after, Some("failed to update store status: " + storeError(StatusUpdate(id)).value);
        }
        after := after[id := store];
      }
      assert after == Deactivated(stores, RowSet(rows[..i + 1]), now) by {
        RowSetStep(rows, i);
        DeactivatedStep(stores, RowSet(rows[..i]), id, now);
        assert after == before[id := Refreshed(stores[id], now)];
      }
      assert listed + [store] == Listed(stores, rows[..i + 1], now) by {
        ListedStep(stores, rows, i, now);
      }
      listed := listed + [store];
    }
    assert rows[..|rows|] == rows;
    failure := None;
  }

  /** The `account`, `store` and `accessToken` tables. */
  class StoreRepository {
    var accounts: map<int, Account>
    var stores: map<int, Store>
    var tokens: map<int, TokenRow>
    var nextTokenId: int

    ghost predicate Valid()
      reads this
    {
      TokensValid(tokens, nextTokenId)
    }

    constructor ()
      ensures Valid()
      ensures accounts == map[] && stores == map[] && tokens == map[]
    {
      accounts, stores, tokens := map[], map[], map[];
      nextTokenId := 1;
    }

    /** `GetAccountByUserID`: no account is `(nil, nil)`, not an error. */
    method GetAccountByUserID(userId: int, queryError: Option<string>) returns (account: Option<Account>, err: Option<string>)
      ensures queryError.Some? ==> account == None && err == Some("failed to get account by user ID: " + queryError.value)
      ensures queryError.None? ==> err == None && (account.Some? <==> userId in accounts)
      ensures account.Some? ==> userId in accounts && account.value == accounts[userId]
    {
      if queryError.Some? {
        return None, Some("failed to get account by user ID: " + queryError.value);
      }
      if userId !in accounts {
        return None, None;
      }
      return Some(accounts[userId]), None;
    }

    /** `SaveStore`: update three columns of an existing store, or insert
        a new one. */
    method SaveStore(s: Store, checkError: Option<string>, execError: Option<string>) returns (err: Option<string>)
      requires Valid()
      modifies this
      ensures Valid()
      ensures checkError.Some? ==> err == Some("failed to check if store exists: " + checkError.value) && stores == old(stores)
      ensures checkError.None? && execError.Some? ==>
                err == Some((if s.id in old(stores) then "failed to update store: " else "failed to insert store: ") + execError.value)
                && stores == old(stores)
      ensures checkError.None? && execError.None? ==> err == None && stores == SavedStores(old(stores), s)
      ensures accounts == old(accounts) && tokens == old(tokens) && nextTokenId == old(nextTokenId)
    {
      if checkError.Some? {
        return Some("failed to check if store exists: " + checkError.value);
      }
      var found := s.id in stores;
      if found {
        if execError.Some? {
          return Some("failed to update store: " + execError.value);
        }
        stores := stores[s.id := stores[s.id].(authTime := s.authTime, expiryTime := s.expiryTime, status := s.status)];
      } else {
        if execError.Some? {
          return Some("failed to insert store: " + execError.value);
        }
        stores := stores[s.id := s];
      }
      return None;
    }

    /** `SaveAccessToken`: returns the final value of `accessToken.ID`. */
    method SaveAccessToken(t: AccessToken, tokenError: TokenStep -> Option<string>) returns (id: int, err: Option<string>)
      requires Valid()
      modifies this
      ensures Valid()
      ensures TokenSave(id, err, tokens, nextTokenId) == SaveToken(old(tokens), old(nextTokenId), t, tokenError)
      ensures accounts == old(accounts) && stores == old(stores)
    {
      SaveTokenValid(tokens, nextTokenId, t, tokenError);
      if tokenError(Lookup).Some? {
        return t.id, Some("failed to check existing access token: " + tokenError(Lookup).value);
      }
      id := t.id;
      if exists k :: k in tokens && tokens[k].storeId == t.storeId {
        var k :| k in tokens && tokens[k].storeId == t.storeId;
        assert TokenIdFor(tokens, t.storeId) == Some(k);
        id := k;
      } else {
        assert TokenIdFor(tokens, t.storeId) == None;
      }
      if id > 0 {
        if tokenError(Update).Some? {
          return id, Some("failed to update access token: " + tokenError(Update).value);
        }
        if id !in tokens {
          return id, Some("failed to update access token: sql: no rows in result set");
        }
        tokens := tokens[id := tokens[id].(accessToken := t.accessToken, refreshToken := t.refreshToken)];
        return id, None;
      }
      if tokenError(Insert).Some? {
        return id, Some("failed to insert access token: " + tokenError(Insert).value);
      }
      tokens := tokens[nextTokenId := TokenRow(t.accountId, t.storeId, t.accessToken, t.refreshToken, t.platform)];
      id := nextTokenId;
      nextTokenId := nextTokenId + 1;
      return id, None;
    }

    /** `UpdateStore`: link the store to its access token; an unknown id
        matches no row and changes nothing. */
    method UpdateStore(s: Store, execError: Option<string>) returns (err: Option<string>)
      requires Valid()
      modifies this
      ensures Valid()
      ensures execError.Some? ==> err == Some("failed to update store: " + execError.value) && stores == old(stores)
      ensures execError.None? ==> err == None && stores == LinkedToken(old(stores), s.id, s.accessTokenId)
      ensures accounts == old(accounts) && tokens == old(tokens) && nextTokenId == old(nextTokenId)
    {
      if execError.Some? {
        return Some("failed to update store: " + execError.value);
      }
      if s.id in stores {
        stores := stores[s.id := stores[s.id].(accessTokenId := s.accessTokenId)];
      }
      return None;
    }

    /** `GetStoresByCompany`: list the company's stores in query order,
        deactivating (in the result and in the table) every expired one.
        Status updates made before a failing row stay in the table. */
    method GetStoresByCompany(companyId: int, now: int, rows: seq<int>, storeError: StoreStep -> Option<string>)
      returns (r: Result<GoSlice<Store>>)
      requires Valid() && IsQueryResult(rows, stores, companyId)
      modifies this
      ensures Valid()
      ensures storeError(Query).Some? ==> r == Err("failed to fetch stores: " + storeError(Query).value) && stores == old(stores)
      ensures storeError(Query).None? ==>
                var k := FirstFailure(old(stores), rows, now, storeError);
                stores == Deactivated(old(stores), RowSet(rows[..k]), now)
                && (k < |rows| ==> r == Err(RowFailure(storeError, rows[k], old(stores)[rows[k]], now).value))
                && (k == |rows| && storeError(RowsErr).Some? ==>
                      r == Err("error iterating through stores: " + storeError(RowsErr).value))
                && (k == |rows| && storeError(RowsErr).None? ==>
                      r == Ok(if rows == [] then Nil else Slice(Listed(old(stores), rows, now))))
      ensures accounts == old(accounts) && tokens == old(tokens) && nextTokenId == old(nextTokenId)
    {
      if storeError(Query).Some? {
        return Err("failed to fetch stores: " + storeError(Query).value);
      }
      var listed, after, failure := ListRows(stores, rows, now, storeError);
      stores := after;
      if failure.Some? {
        return Err(failure.value);
      }
      if storeError(RowsErr).Some? {
        return Err("error iterating through stores: " + storeError(RowsErr).value);
      }
      if listed == [] {
        return Ok(Nil);
      }
      return Ok(Slice(listed));
    }
  }

  /** The `store` table after `UpdateStore`. */
  function LinkedToken(stores: map<int, Store>, id: int, tokenId: int): map<int, Store> {
    if id in stores then stores[id := stores[id].(accessTokenId := tokenId)] else stores
  }

  /** `UpdateStore` changes only `access_token_id`, and only of the given
      store. */
  lemma LinkedTokenEffect(stores: map<int, Store>, id: int, tokenId: int)
    ensures var after := LinkedToken(stores, id, tokenId);
            after.Keys == stores.Keys
            && (forall k :: k in stores ==> after[k].(accessTokenId := stores[k].accessTokenId) == stores[k])
            && (forall k :: k in stores && k != id ==> after[k] == stores[k])
            && (id in stores ==> after[id].accessTokenId == tokenId)
  {
  }
}
