/**
 The per-user preference maps of the bot (`userPrefs` for download modes and
 `langPrefs` for languages). In the program each is a process-wide map behind a
 read/write lock; here a store is a plain immutable map from user id to value,
 and an update returns the new map.
 */
module Prefs {

  type Store<V> = map<int, V>

  /** The stored value for `uid`, or `default` when the user never chose one. */
  function Get<V>(store: Store<V>, uid: int, default: V): (v: V)
    ensures uid !in store ==> v == default
    ensures uid in store ==> v == store[uid]
  {
    if uid in store then store[uid] else default
  }

  /** Record `v` for `uid`; every other user keeps what they had. */
  function Put<V>(store: Store<V>, uid: int, v: V): (store': Store<V>)
    ensures uid in store' && store'[uid] == v
    ensures forall u | u != uid :: (u in store' <==> u in store) && (u in store ==> store'[u] == store[u])
  {
    store[uid := v]
  }
}
