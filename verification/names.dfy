/** The per-date name assignments (`st.session_state.date_names`,
    app.py:119-133): saving stores the stripped name, saving a blank name or
    clearing the day removes the entry, and lookups default to "". The
    source keys the map by `date.isoformat()`, which is one-to-one on dates,
    so the model keys it by the date itself. */
module Names {
  import opened Calendar
  import opened Text

  type NameStore = map<Date, string>

  /** `date_names.get(d.isoformat(), "")` (app.py:100, 119, 173). In a store
      built by saves and clears, the empty name means exactly "no entry",
      which is what the calendar's `if name_assigned:` (app.py:104) relies
      on, and a name shown is already stripped. */
  function Lookup(store: NameStore, d: Date): (name: string)
    ensures Tidy(store) ==> (name == "" <==> d !in store)
    ensures Tidy(store) ==> Strip(name) == name
  {
    if d in store then store[d] else ""
  }

  /** The "Salvar" button (app.py:124-128): a name that is not blank after
      stripping is stored stripped; a blank one removes the day's entry. */
  function Save(store: NameStore, d: Date, input: string): (r: NameStore)
    ensures Strip(input) != [] ==> d in r && r[d] == Strip(input)
    ensures Strip(input) == [] ==> d !in r
    ensures forall k :: k != d ==> (k in r <==> k in store)
    ensures forall k :: k != d && k in store ==> r[k] == store[k]
  {
    var t := Strip(input);
    if t != [] then store[d := t] else store - {d}
  }

  /** The "Limpar este dia" button (app.py:131-132): removes the day's entry. */
  function Clear(store: NameStore, d: Date): (r: NameStore)
    ensures d !in r
    ensures forall k :: k != d ==> (k in r <==> k in store)
    ensures forall k :: k != d && k in store ==> r[k] == store[k]
  {
    store - {d}
  }

  /** What every entry of the store looks like after any sequence of saves and
      clears: a non-empty name with no surrounding whitespace. */
  predicate Tidy(store: NameStore) {
    forall k :: k in store ==> store[k] != [] && Strip(store[k]) == store[k]
  }

  lemma SaveKeepsTidy(store: NameStore, d: Date, input: string)
    requires Tidy(store)
    ensures Tidy(Save(store, d, input))
  {
    StripIdempotent(input);
  }

  lemma ClearKeepsTidy(store: NameStore, d: Date)
    requires Tidy(store)
    ensures Tidy(Clear(store, d))
  {
  }

  /** Saving a blank name is the same as clearing the day. */
  lemma SaveBlankIsClear(store: NameStore, d: Date, input: string)
    requires Strip(input) == []
    ensures Save(store, d, input) == Clear(store, d)
  {
  }

  /** Saving the same input twice is saving it once, and after a save the day
      shows exactly the stripped input. */
  lemma SaveIdempotent(store: NameStore, d: Date, input: string)
    ensures Save(Save(store, d, input), d, input) == Save(store, d, input)
    ensures Lookup(Save(store, d, input), d) == Strip(input)
  {
  }

  /** After a save, the day shows its stripped input and every other day shows
      what it showed before. */
  lemma SaveLookup(store: NameStore, d: Date, input: string, k: Date)
    ensures Lookup(Save(store, d, input), k) == (if k == d then Strip(input) else Lookup(store, k))
  {
  }

  /** After clearing, the day shows "" and every other day shows what it showed
      before. */
  lemma ClearLookup(store: NameStore, d: Date, k: Date)
    ensures Lookup(Clear(store, d), k) == (if k == d then "" else Lookup(store, k))
  {
  }
}
