/** `useLocalStorage`: a piece of state mirrored under one key of the browser's storage. */
module LocalStorage {
  import opened Wrappers

  /** What reading the key at start-up produced: `getItem` followed by `JSON.parse`. */
  datatype LoadResult<T> =
    | Absent          // `getItem` returned null
    | EmptyItem       // `getItem` returned the empty string, which is falsy
    | Parsed(value: T)
    | ReadFailed      // `getItem` threw
    | ParseFailed     // `JSON.parse` threw

  /** The initial state: the parsed item when there is one, otherwise the caller's initial value. */
  function InitialState<T>(load: LoadResult<T>, initialValue: T): (r: T)
    ensures load.Parsed? ==> r == load.value
    ensures (load.Absent? || load.EmptyItem? || load.ReadFailed? || load.ParseFailed?) ==> r == initialValue
  {
    match load
    case Parsed(v) => v
    case _ => initialValue
  }

  /** The caller's initial value matters exactly when no stored item was parsed. */
  lemma InitialValueUsedUnlessParsed<T>(load: LoadResult<T>, a: T, b: T)
    ensures InitialState(load, a) == InitialState(load, b) <==> load.Parsed? || a == b
  {
  }

  /** The argument of `setValue`: a value to store, or a function of the current value. */
  datatype SetArgument<!T> = NewValue(value: T) | Updater(apply: T -> T)

  function Resolve<T>(arg: SetArgument<T>, current: T): (r: T)
    ensures arg.NewValue? ==> r == arg.value
    ensures arg.Updater? ==> r == arg.apply(current)
  {
    match arg
    case NewValue(v) => v
    case Updater(f) => f(current)
  }

  /**
   * Successive `setValue` calls: two updaters act as their composition, and a
   * plain value ignores whatever the current value is.
   */
  lemma ResolveComposes<T>(f: T -> T, g: T -> T, v: T, current: T, other: T)
    ensures Resolve(Updater(g), Resolve(Updater(f), current)) == Resolve(Updater(x => g(f(x))), current)
    ensures Resolve(NewValue(v), current) == Resolve(NewValue(v), other)
  {
  }

  /**
   * The hook's state: `value` is what the component renders, `persisted`
   * the last value this session wrote to storage (None before any write).
   */
  class StoredCell<T(==)> {
    const key: string
    var value: T
    var persisted: Option<T>

    /** Reading the key never fails towards the caller: a failure falls back to `initialValue`. */
    constructor(key: string, load: LoadResult<T>, initialValue: T)
      ensures this.key == key
      ensures value == InitialState(load, initialValue)
      ensures persisted == None
    {
      this.key := key;
      value := InitialState(load, initialValue);
      persisted := None;
    }

    /** The state and the stored copy agree. */
    predicate InSync()
      reads this
    {
      persisted == Some(value)
    }

    /**
     * `setValue(arg)`: the in-memory value is replaced first, then written;
     * a failed write (`writeOk` false) is swallowed and leaves the previous
     * stored copy, while the new value stays in memory.
     */
    method SetValue(arg: SetArgument<T>, writeOk: bool)
      modifies this
      ensures value == Resolve(arg, old(value))
      ensures persisted == if writeOk then Some(value) else old(persisted)
      ensures writeOk ==> InSync()
    {
      var valueToStore := Resolve(arg, value);
      value := valueToStore;
      if writeOk {
        persisted := Some(valueToStore);
      }
    }
  }
}
