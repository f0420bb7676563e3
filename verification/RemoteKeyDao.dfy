/** The `remote_keys` table and the queries of `RemoteKeyDao`. */
module RemoteKeyDao {
  import opened Nullable
  import opened Entities
  import Table

  /** `SELECT * FROM remote_keys WHERE articleUrl = :u` over table `rows`. */
  function Lookup(rows: map<string, RemoteKeyEntity>, u: string): Option<RemoteKeyEntity> {
    if u in rows then Some(rows[u]) else None
  }

  /** Round trip: after a key is inserted, looking up its url gives that key
      back, unless a later key of the same batch replaced it. */
  lemma InsertThenLookup(rows: map<string, RemoteKeyEntity>, keys: seq<RemoteKeyEntity>, i: int)
    requires 0 <= i < |keys|
    requires forall j :: i < j < |keys| ==> keys[j].articleUrl != keys[i].articleUrl
    ensures Lookup(Table.Upsert(rows, keys, KeyArticleUrl), keys[i].articleUrl) == Some(keys[i])
  {
    Table.UpsertLastWins(rows, keys, KeyArticleUrl, i);
  }

  /** Inserting keys leaves the lookup of every other url as it was. */
  lemma InsertKeepsOtherLookups(rows: map<string, RemoteKeyEntity>, keys: seq<RemoteKeyEntity>, u: string)
    requires forall k :: k in keys ==> k.articleUrl != u
    ensures Lookup(Table.Upsert(rows, keys, KeyArticleUrl), u) == Lookup(rows, u)
  {
    Table.UpsertElsewhere(rows, keys, KeyArticleUrl, u);
  }

  class RemoteKeyDao {
    var rows: map<string, RemoteKeyEntity>

    ghost predicate Valid()
      reads this
    {
      Table.KeyedBy(rows, KeyArticleUrl)
    }

    constructor ()
      ensures Valid() && rows == map[]
    {
      rows := map[];
    }

    /** `@Insert(onConflict = REPLACE) insertAll(remoteKey)` */
    method InsertAll(remoteKey: seq<RemoteKeyEntity>)
      requires Valid()
      modifies this
      ensures Valid()
      ensures rows == Table.Upsert(old(rows), remoteKey, KeyArticleUrl)
    {
      for i := 0 to |remoteKey|
        invariant Table.KeyedBy(rows, KeyArticleUrl)
        invariant Table.Upsert(rows, remoteKey[i..], KeyArticleUrl) == Table.Upsert(old(rows), remoteKey, KeyArticleUrl)
      {
        assert remoteKey[i..][1..] == remoteKey[i + 1..];
        rows := rows[remoteKey[i].articleUrl := remoteKey[i]];
      }
    }

    /** `getRemoteKeyByArticleUrl(articleUrl)` */
    method GetRemoteKeyByArticleUrl(articleUrl: string) returns (r: Option<RemoteKeyEntity>)
      requires Valid()
      ensures r.Some? <==> articleUrl in rows
      ensures r.Some? ==> r.value == rows[articleUrl] && r.value.articleUrl == articleUrl
      ensures r == Lookup(rows, articleUrl)
    {
      r := if articleUrl in rows then Some(rows[articleUrl]) else None;
    }

    /** `DELETE FROM remote_keys`: afterwards every lookup finds nothing. */
    method ClearRemoteKeys()
      modifies this
      ensures Valid() && rows == map[]
      ensures forall u :: Lookup(rows, u) == None
    {
      rows := map[];
    }
  }
}
