// Nested, keyed contexts that make a value available to everything running
// inside them.
module ProcessContext {
  import opened Wrappers
  import opened Lists

  /** The key a context is created with; None is the default (null) key. */
  type Key = Option<string>

  /**
   * GetProcessContextKey: the call-context slot of a key. String
   * concatenation renders a null key as "", so null and "" share one slot.
   */
  function SlotKey(typeName: string, key: Key): string
  {
    "ProcessContext:" + typeName + "|K:" + key.GetOr("")
  }

  /** Two keys of one data type share a slot exactly when their texts agree, null reading as "". */
  lemma SlotKeyMeaning(typeName: string, k1: Key, k2: Key)
    ensures SlotKey(typeName, k1) == SlotKey(typeName, k2) <==> k1.GetOr("") == k2.GetOr("")
  {
    var prefix := "ProcessContext:" + typeName + "|K:";
    if SlotKey(typeName, k1) == SlotKey(typeName, k2) {
      assert k1.GetOr("") == SlotKey(typeName, k1)[|prefix|..];
      assert k2.GetOr("") == SlotKey(typeName, k2)[|prefix|..];
    }
  }

  /** The live contexts in a slot, oldest first; a slot never used has none. */
  function Contexts<C>(lists: map<string, seq<C>>, slot: string): seq<C>
  {
    if slot in lists then lists[slot] else []
  }

  /** The constructor's registration: the new context goes to the end of its slot's list. */
  function Push<C>(lists: map<string, seq<C>>, slot: string, c: C): (r: map<string, seq<C>>)
    ensures Contexts(r, slot) == Contexts(lists, slot) + [c]
    ensures forall k :: k != slot ==> Contexts(r, k) == Contexts(lists, k)
  {
    lists[slot := Contexts(lists, slot) + [c]]
  }

  /** Dispose's deregistration: the context leaves its slot's list. */
  function Withdraw<C(==)>(lists: map<string, seq<C>>, slot: string, c: C): (r: map<string, seq<C>>)
    ensures Contexts(r, slot) == RemoveFirst(Contexts(lists, slot), c)
    ensures forall k :: k != slot ==> Contexts(r, k) == Contexts(lists, k)
  {
    lists[slot := RemoveFirst(Contexts(lists, slot), c)]
  }

  /** Disposing the context just created restores every list as it was. */
  lemma PushThenWithdraw<C>(lists: map<string, seq<C>>, slot: string, c: C)
    requires c !in Contexts(lists, slot)
    ensures forall k :: Contexts(Withdraw(Push(lists, slot, c), slot, c), k) == Contexts(lists, k)
  {
    var s := Contexts(lists, slot);
    var i := IndexOf(s + [c], c);
    assert i == |s| by {
      assert (s + [c])[|s|] == c;
      assert (s + [c])[..i] == s[..i];
    }
    assert (s + [c])[..|s|] == s;
  }

  /** A context value holder of the process. */
  class Context<T> {
    const key: Key
    const data: T
    const store: ContextStore<T>

    /** new ProcessContext<T>(key, data): registers itself under its key. */
    constructor (s: ContextStore<T>, k: Key, d: T)
      modifies s
      ensures key == k && data == d && store == s
      ensures s.lists == Push(old(s.lists), s.Slot(k), this)
      ensures s.defaultExpression == old(s.defaultExpression)
      ensures s.GetCurrent(k) == d
      ensures k.GetOr("") == "" ==> s.Current() == d
    {
      key := k;
      data := d;
      store := s;
      new;
      s.lists := s.lists[s.Slot(k) := Contexts(s.lists, s.Slot(k)) + [this]];
      SlotKeyMeaning(s.typeName, k, None);
    }

    /** Dispose: removes this context from its key's list, making the containing context current again. */
    method Dispose()
      modifies store
      ensures store.lists == Withdraw(old(store.lists), store.Slot(key), this)
      ensures store.defaultExpression == old(store.defaultExpression)
    {
      store.lists := store.lists[store.Slot(key) := RemoveFirst(Contexts(store.lists, store.Slot(key)), this)];
    }
  }

  /**
   * The call-context slots of one data type T, named by `typeName`
   * (typeof(T).FullName), and its static DefaultDataExpression;
   * `defaultValue` is default(T).
   */
  class ContextStore<T> {
    var lists: map<string, seq<Context<T>>>
    var defaultExpression: () -> T
    const defaultValue: T
    const typeName: string

    constructor (name: string, d: T)
      ensures lists == map[] && typeName == name && defaultValue == d && defaultExpression() == d
    {
      lists := map[];
      typeName := name;
      defaultValue := d;
      defaultExpression := () => d;
    }

    /** The slot of a key for this data type. */
    function Slot(key: Key): string
    {
      SlotKey(typeName, key)
    }

    /** GetCurrent(key): the data of the last live context under the key, else the default expression's value. */
    function GetCurrent(key: Key): (r: T)
      reads this
      ensures Contexts(lists, Slot(key)) == [] ==> r == defaultExpression()
      ensures Contexts(lists, Slot(key)) != [] ==> r == Contexts(lists, Slot(key))[|Contexts(lists, Slot(key))| - 1].data
    {
      var contexts := Contexts(lists, Slot(key));
      if |contexts| == 0 then defaultExpression() else contexts[|contexts| - 1].data
    }

    /** Current: the current data under the default key. */
    function Current(): T
      reads this
    {
      GetCurrent(None)
    }

    /** SetDefaultDataExpression: null resets the default to default(T). */
    method SetDefaultDataExpression(expression: Option<() -> T>)
      modifies this
      ensures lists == old(lists)
      ensures expression.None? ==> defaultExpression() == defaultValue
      ensures expression.Some? ==> defaultExpression == expression.value
    {
      if expression.None? {
        defaultExpression := () => defaultValue;
      } else {
        defaultExpression := expression.value;
      }
    }
  }

  /** Keys with the same text, null reading as "", see the same current data. */
  lemma SameSlotSameCurrent<T>(s: ContextStore<T>, k1: Key, k2: Key)
    requires k1.GetOr("") == k2.GetOr("")
    ensures s.GetCurrent(k1) == s.GetCurrent(k2)
    ensures k1.GetOr("") == "" ==> s.GetCurrent(k1) == s.Current()
  {
    SlotKeyMeaning(s.typeName, k1, k2);
    SlotKeyMeaning(s.typeName, k1, None);
  }
}
