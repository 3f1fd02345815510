/**
 * The API server as the reconciler sees it through `client.Client`: a store of
 * objects keyed by namespace and name, read with Get and changed with Create and
 * Delete. Each call may be handed an injected error (a transient failure, a stale
 * cache answering 404, ...), which it then returns without touching the store.
 */
module ClusterStore {
  import opened EmitterTypes

  type Store = map<NamespacedName, Deployment>

  /** What Get hands back: the stored object, or the error the call failed with. */
  datatype Fetched<T> = Found(obj: T) | Failed(err: Failure)

  /** The store after a write and the error the write returned. */
  datatype Written = Written(store: Store, err: Err)

  /** Every object is stored under its own namespace and name. */
  ghost predicate Consistent(store: Store)
  {
    forall k :: k in store ==> KeyOf(store[k]) == k
  }

  /** `client.Get`: the object stored under `key`, or a 404 when there is none. */
  function Get<T>(objects: map<NamespacedName, T>, key: NamespacedName, fault: Err): (r: Fetched<T>)
    ensures r.Found? <==> fault == Nil && key in objects
    ensures r.Found? ==> r.obj == objects[key]
    ensures r.Failed? && fault == Nil ==> r.err == NotFound
    ensures r.Failed? && fault != Nil ==> r.err == fault
  {
    if fault != Nil then Failed(fault)
    else if key in objects then Found(objects[key])
    else Failed(NotFound)
  }

  /**
   * `client.Create`: stores `d` under its own key; the server refuses with
   * AlreadyExists when that key is taken.
   */
  function Create(store: Store, d: Deployment, fault: Err): (w: Written)
    ensures w.err == Nil <==> fault == Nil && KeyOf(d) !in store
    ensures w.err == Nil ==> w.store.Keys == store.Keys + {KeyOf(d)} && w.store[KeyOf(d)] == d
    ensures forall k :: k in store ==> k in w.store && w.store[k] == store[k]
    ensures w.err != Nil ==> w.store == store
    ensures fault != Nil ==> w.err == fault
    ensures fault == Nil && KeyOf(d) in store ==> w.err == AlreadyExists
  {
    if fault != Nil then Written(store, fault)
    else if KeyOf(d) in store then Written(store, AlreadyExists)
    else Written(store[KeyOf(d) := d], Nil)
  }

  /** `client.Delete`: removes the object stored under `key`; a 404 when there is none. */
  function Delete(store: Store, key: NamespacedName, fault: Err): (w: Written)
    ensures w.err == Nil <==> fault == Nil && key in store
    ensures w.err == Nil ==> w.store.Keys == store.Keys - {key}
    ensures forall k :: k in w.store ==> k in store && w.store[k] == store[k]
    ensures w.err != Nil ==> w.store == store
    ensures fault != Nil ==> w.err == fault
    ensures fault == Nil && key !in store ==> w.err == NotFound
  {
    if fault != Nil then Written(store, fault)
    else if key in store then Written(store - {key}, Nil)
    else Written(store, NotFound)
  }
}
