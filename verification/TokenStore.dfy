/**
  The OAuth token store as the object each process keeps: a resident map reconciled with the shared
  file.  Each method's contract is the corresponding step of TokenFileState.
 */
module TokenStore {
  import opened Prelude
  import opened TokenFileState

  /** The JSON file under the data directory, shared by every process. */
  class TokenFile {
    var content: File

    constructor ()
      ensures content == NoFile
    {
      content := NoFile;
    }
  }

  class TokenCache {
    const file: TokenFile?  // null keeps tokens in memory only
    var toks: Tokens
    var loaded: bool
    var seen: Stamp
    var nextCheck: int

    ghost function View(): Store
      reads this
    {
      Store(toks, loaded, seen, nextCheck)
    }

    constructor (file: TokenFile?)
      ensures this.file == file && View() == FRESH
    {
      this.file := file;
      toks, loaded, seen, nextCheck := map[], false, NEVER, 0;
    }

    /** Reconciles the resident map with the file. */
    method SyncNow()
      modifies this
      ensures View() == if file == null then old(View()) else Sync(old(View()), file.content)
    {
      if file == null {
        return;
      }
      if file.content == NoFile {
        loaded := true;
        return;
      }
      var f := file.content;
      if loaded && f.stamp == seen {
        return;
      }
      if !loaded {
        toks := f.toks;
      } else {
        MergeIn(f.toks);
      }
      loaded, seen := true, f.stamp;
    }

    /** Copies in every entry at least as new as the resident one. */
    method MergeIn(src: Tokens)
      modifies this`toks
      ensures toks == MergeNewer(old(toks), src)
    {
      ghost var dst := toks;
      var todo := src.Keys;
      while todo != {}
        invariant todo <= src.Keys
        invariant toks.Keys == dst.Keys + (src.Keys - todo)
        invariant forall k :: k in toks ==>
          toks[k] == if k in src && k !in todo then MergeNewer(dst, src)[k] else dst[k]
      {
        var k :| k in todo;
        if k !in toks || !(src[k].updatedAt < toks[k].updatedAt) {
          toks := toks[k := src[k]];
        }
        todo := todo - {k};
      }
      assert toks.Keys == MergeNewer(dst, src).Keys;
    }

    /** Re-syncs and rewrites the file with the resident map; the rename gives it a new stamp. */
    method PersistNow(stamp: Stamp)
      modifies this, file
      ensures file == null ==> View() == old(View())
      ensures file != null ==> (View(), file.content) == Persist(old(View()), old(file.content), stamp)
    {
      if file == null {
        return;
      }
      SyncNow();
      file.content := File(toks, stamp);
      seen := stamp;
    }

    method PutToken(key: string, value: string, now: int, stamp: Stamp)
      modifies this, file
      ensures file == null ==> View() == old(View()).(toks := old(toks)[key := Token(value, now)])
      ensures file != null ==> (View(), file.content) == Put(old(View()), old(file.content), key, value, now, stamp)
    {
      SyncNow();
      toks := toks[key := Token(value, now)];
      PersistNow(stamp);
    }

    /** The request-time read: at most one re-check of the file a second. */
    method GetToken(key: string, now: int) returns (t: Option<Token>)
      modifies this
      ensures View() == if file == null then old(View()) else GetSync(old(View()), file.content, now)
      ensures t == if key in toks then Some(toks[key]) else None
    {
      if file != null && now > nextCheck {
        SyncNow();
        nextCheck := now + HOT_RESYNC;
      }
      t := if key in toks then Some(toks[key]) else None;
    }
  }
}
