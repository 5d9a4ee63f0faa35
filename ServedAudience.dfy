/**
 * The in-memory part of `Database` (main.py:50-80). Two cached id lists,
 * `cache["users"]` and `cache["chats"]`, stand in front of two persistent
 * collections. A getter fills an empty cache from its collection: user ids
 * greater than 0, chat ids less than 0. `add_served_user` and
 * `add_served_chat` first call the getter, then insert and append an id only
 * when the cache does not hold it yet. The collections are modelled as the
 * sequences of ids inserted into them, in insertion order.
 */
module ServedAudience {
  import opened Common

  /**
   * The list after appending `x` when it is absent (main.py:66-68, 78-80):
   * the old ids stay in order, exactly `x` is added, and a duplicate-free
   * list stays duplicate-free.
   */
  function Added(s: seq<int>, x: int): (r: seq<int>)
    ensures s <= r
    ensures forall y :: y in r <==> y in s || y == x
    ensures NoDup(s) ==> NoDup(r)
  {
    if x in s then s else s + [x]
  }

  /** After adding, `x` occurs exactly once in a duplicate-free list. */
  lemma AddedOnce(s: seq<int>, x: int)
    requires NoDup(s)
    ensures Count(Added(s, x), x) == 1
  {
    NoDupCountOne(Added(s, x), x);
  }

  /** A repeated add changes nothing. */
  lemma AddedIdempotent(s: seq<int>, x: int)
    ensures Added(Added(s, x), x) == Added(s, x)
  {
  }

  /** The query filter of `get_served_users`: `{"user_id": {"$gt": 0}}`. */
  predicate IsUserId(x: int) {
    x > 0
  }

  /** The query filter of `get_served_chats`: `{"chat_id": {"$lt": 0}}`. */
  predicate IsChatId(x: int) {
    x < 0
  }

  /** The stored ids a query with filter `keep` returns, in stored order. */
  function Filter(docs: seq<int>, keep: int -> bool): (r: seq<int>)
    ensures |r| <= |docs|
    ensures forall x :: x in r <==> x in docs && keep(x)
  {
    if docs == [] then []
    else
      var last := docs[|docs| - 1];
      Filter(docs[..|docs| - 1], keep) + (if keep(last) then [last] else [])
  }

  /** The cache after the getter ran: an empty cache is filled from the collection, a filled one is kept. */
  function Loaded(cache: seq<int>, docs: seq<int>, keep: int -> bool): (r: seq<int>)
    ensures cache == [] ==> forall x :: x in r <==> x in docs && keep(x)
    ensures cache != [] ==> r == cache
  {
    if cache == [] then Filter(docs, keep) else cache
  }

  /**
   * How a cache relates to its collection: both hold each kept id at most
   * once, the cache holds only stored ids, and a filled cache holds every
   * stored id the query would return.
   */
  ghost predicate Coherent(cache: seq<int>, docs: seq<int>, keep: int -> bool) {
    && NoDup(Filter(docs, keep)) && NoDup(cache)
    && (forall x :: x in cache ==> x in docs)
    && (cache != [] ==> forall x :: x in docs && keep(x) ==> x in cache)
  }

  /** Loading keeps a cache coherent, and a loaded cache holds every stored id the query returns. */
  lemma LoadedCoherent(cache: seq<int>, docs: seq<int>, keep: int -> bool)
    requires Coherent(cache, docs, keep)
    ensures Coherent(Loaded(cache, docs, keep), docs, keep)
    ensures forall x :: x in docs && keep(x) ==> x in Loaded(cache, docs, keep)
  {
  }

  /** The query over a collection with one more id appended. */
  lemma FilterSnoc(docs: seq<int>, keep: int -> bool, x: int)
    ensures Filter(docs + [x], keep) == Filter(docs, keep) + (if keep(x) then [x] else [])
  {
    assert (docs + [x])[..|docs|] == docs;
  }

  /** Inserting an id that a loaded cache lacks keeps cache and collection coherent. */
  lemma InsertCoherent(c: seq<int>, docs: seq<int>, keep: int -> bool, x: int)
    requires Coherent(c, docs, keep) && x !in c
    requires forall y :: y in docs && keep(y) ==> y in c
    ensures Coherent(c + [x], docs + [x], keep)
  {
    FilterSnoc(docs, keep, x);
    if keep(x) {
      NoDupSnoc(Filter(docs, keep), x);
    } else {
      assert Filter(docs + [x], keep) == Filter(docs, keep);
    }
    NoDupSnoc(c, x);
  }

  /**
   * Adding an id to the loaded cache keeps both coherent: when the cache
   * lacks it, it was not stored before, so the collection stays free of
   * duplicates.
   */
  lemma {:induction false} AddCoherent(cache: seq<int>, docs: seq<int>, keep: int -> bool, x: int)
    requires Coherent(cache, docs, keep)
    ensures var c := Loaded(cache, docs, keep);
      var d := if x in c then docs else docs + [x];
      Coherent(Added(c, x), d, keep) && Count(Added(c, x), x) == 1
  {
    var c := Loaded(cache, docs, keep);
    LoadedCoherent(cache, docs, keep);
    AddedOnce(c, x);
    if x !in c {
      InsertCoherent(c, docs, keep, x);
    }
  }

  /** Once an id the query returns is stored, adding it again inserts nothing and leaves the cache as loaded. */
  lemma StoredIdNotReinserted(cache: seq<int>, docs: seq<int>, keep: int -> bool, x: int)
    requires Coherent(cache, docs, keep) && x in docs && keep(x)
    ensures x in Loaded(cache, docs, keep)
    ensures Added(Loaded(cache, docs, keep), x) == Loaded(cache, docs, keep)
  {
    LoadedCoherent(cache, docs, keep);
  }

  /** A second add of the same id finds the cache filled and holding it: the list and the collection stay as they are. */
  lemma RepeatedAddIsNoOp(cache: seq<int>, docs: seq<int>, keep: int -> bool, x: int)
    requires Coherent(cache, docs, keep)
    ensures var l := Loaded(cache, docs, keep);
      var c, d := Added(l, x), if x in l then docs else docs + [x];
      Loaded(c, d, keep) == c && x in c && Added(c, x) == c
  {
  }

  class Database {
    /** `cache["users"]`. */
    var users: seq<int>
    /** `cache["chats"]`. */
    var chats: seq<int>
    /** The `user_id`s in the users collection, in insertion order. */
    var storedUsers: seq<int>
    /** The `chat_id`s in the chats collection, in insertion order. */
    var storedChats: seq<int>

    ghost predicate Valid()
      reads this
    {
      Coherent(users, storedUsers, IsUserId) && Coherent(chats, storedChats, IsChatId)
    }

    /**
     * `Database.__init__` over collections that already hold these ids: both
     * caches start empty. The collections are expected to hold each id at
     * most once, as this class leaves them.
     */
    constructor (existingUsers: seq<int>, existingChats: seq<int>)
      requires NoDup(Filter(existingUsers, IsUserId)) && NoDup(Filter(existingChats, IsChatId))
      ensures Valid()
      ensures users == [] && chats == [] && storedUsers == existingUsers && storedChats == existingChats
    {
      users, chats := [], [];
      storedUsers, storedChats := existingUsers, existingChats;
    }

    /** `get_served_users`: fill an empty cache from the collection, then return the cache. */
    method GetServedUsers() returns (ids: seq<int>)
      requires Valid()
      modifies this
      ensures Valid()
      ensures users == Loaded(old(users), old(storedUsers), IsUserId) && ids == users
      ensures forall x :: x in storedUsers && IsUserId(x) ==> x in ids
      ensures storedUsers == old(storedUsers) && chats == old(chats) && storedChats == old(storedChats)
    {
      LoadedCoherent(users, storedUsers, IsUserId);
      if users == [] {
        users := Filter(storedUsers, IsUserId);
      }
      ids := users;
    }

    /** `get_served_chats`: fill an empty cache from the collection, then return the cache. */
    method GetServedChats() returns (ids: seq<int>)
      requires Valid()
      modifies this
      ensures Valid()
      ensures chats == Loaded(old(chats), old(storedChats), IsChatId) && ids == chats
      ensures forall x :: x in storedChats && IsChatId(x) ==> x in ids
      ensures storedChats == old(storedChats) && users == old(users) && storedUsers == old(storedUsers)
    {
      LoadedCoherent(chats, storedChats, IsChatId);
      if chats == [] {
        chats := Filter(storedChats, IsChatId);
      }
      ids := chats;
    }

    /** `add_served_user`: load the cache, then insert and append the id only when the cache lacks it. */
    method AddServedUser(u: int)
      requires Valid()
      modifies this
      ensures Valid()
      ensures var c := Loaded(old(users), old(storedUsers), IsUserId);
        && users == Added(c, u) && Count(users, u) == 1
        && storedUsers == if u in c then old(storedUsers) else old(storedUsers) + [u]
      ensures chats == old(chats) && storedChats == old(storedChats)
    {
      AddCoherent(users, storedUsers, IsUserId, u);
      ghost var loaded := Loaded(users, storedUsers, IsUserId);
      var cached := GetServedUsers();
      if u !in cached {
        storedUsers := storedUsers + [u];
        users := users + [u];
      }
      assert users == Added(loaded, u) && storedUsers == if u in loaded then old(storedUsers) else old(storedUsers) + [u];
    }

    /** `add_served_chat`: load the cache, then insert and append the id only when the cache lacks it. */
    method AddServedChat(c: int)
      requires Valid()
      modifies this
      ensures Valid()
      ensures var l := Loaded(old(chats), old(storedChats), IsChatId);
        && chats == Added(l, c) && Count(chats, c) == 1
        && storedChats == if c in l then old(storedChats) else old(storedChats) + [c]
      ensures users == old(users) && storedUsers == old(storedUsers)
    {
      AddCoherent(chats, storedChats, IsChatId, c);
      ghost var loaded := Loaded(chats, storedChats, IsChatId);
      var cached := GetServedChats();
      if c !in cached {
        storedChats := storedChats + [c];
        chats := chats + [c];
      }
      assert chats == Added(loaded, c) && storedChats == if c in loaded then old(storedChats) else old(storedChats) + [c];
    }
  }
}
