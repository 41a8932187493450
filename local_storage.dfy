/** `useLocalStorage` (`src/hooks/useLocalStorage.ts`): a value kept in component state and
    mirrored in storage under one key. Values are stored already decoded; `JSON.parse` and
    `JSON.stringify` are not modelled. */
module LocalStorage {
  import opened Common

  /** What storage holds under a key: an empty string, text that does not parse, or a value. */
  datatype Item<T> = EmptyItem | Unparsable | Value(value: T)

  /** The initial read: missing and empty items and read or parse errors give `initialValue`. */
  function InitialValue<T>(storage: map<string, Item<T>>, key: string, readFails: bool, initialValue: T): T {
    if readFails || key !in storage then initialValue
    else match storage[key]
      case Value(v) => v
      case _ => initialValue
  }

  /** Only a stored value that can be read is taken; everything else falls back. */
  lemma InitialValueMeaning<T>(storage: map<string, Item<T>>, key: string, readFails: bool, initialValue: T)
    ensures !readFails && key in storage && storage[key].Value? ==>
      InitialValue(storage, key, readFails, initialValue) == storage[key].value
    ensures readFails || key !in storage || !storage[key].Value? ==>
      InitialValue(storage, key, readFails, initialValue) == initialValue
    ensures forall v: T :: InitialValue(storage[key := Value(v)], key, false, initialValue) == v
  {
  }

  /** The hook's state (`storedValue`) and the storage it writes. */
  class Hook<T> {
    const key: string
    var storedValue: T
    var storage: map<string, Item<T>>

    constructor(key: string, initialValue: T, storage: map<string, Item<T>>, readFails: bool)
      ensures this.key == key && this.storage == storage
      ensures storedValue == InitialValue(storage, key, readFails, initialValue)
    {
      this.key := key;
      this.storage := storage;
      storedValue := InitialValue(storage, key, readFails, initialValue);
    }

    /** The state and storage agree. */
    ghost predicate InSync()
      reads this
    {
      key in storage && storage[key] == Value(storedValue)
    }

    /** `setValue`: the state is set first; the write to storage touches only this key and, when
        it throws (`writeFails`), is lost while the state keeps the new value. */
    method SetValue(value: T, writeFails: bool)
      modifies this
      ensures storedValue == value
      ensures !writeFails ==> storage == old(storage)[key := Value(value)] && InSync()
      ensures writeFails ==> storage == old(storage)
      ensures forall k :: k != key ==> (k in storage <==> k in old(storage))
      ensures forall k :: k != key && k in storage ==> storage[k] == old(storage)[k]
    {
      storedValue := value;
      if !writeFails {
        storage := storage[key := Value(value)];
      }
    }
  }
}
