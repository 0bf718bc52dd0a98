/** `BuilderAliasing`: the value list of `ZoneUpdateAction.Builder` as the
    Java code shares it. The builder owns one mutable list; building an
    action sorts that very list in place and keeps an unmodifiable view of
    it, so the builder and every action built from it see the same list.
    Lists are modelled by identity in a heap. */
module BuilderAliasing {
  import opened JavaStrings
  import opened StringSort

  /** Mutable lists by identity. */
  type Heap = map<nat, seq<string>>

  /** An action as built: its action word and the list its view reads. */
  datatype SharedAction = SharedAction(action: string, list: nat)

  /** The heap and the identity of the builder's own list. */
  datatype State = State(heap: Heap, builderList: nat)

  predicate Live(st: State)
  {
    st.builderList in st.heap
  }

  /** A fresh builder: one empty list. */
  function NewState(): (st: State)
    ensures Live(st) && st.heap[st.builderList] == []
  {
    State(map[0 := []], 0)
  }

  /** `withData` / `withResourceRecords`: `addAll` on the builder's list. */
  function AddValues(st: State, values: seq<string>): (r: State)
    requires Live(st)
    ensures Live(r) && r.builderList == st.builderList
    ensures r.heap[r.builderList] == st.heap[st.builderList] + values
    ensures forall k :: k in st.heap && k != st.builderList ==> k in r.heap && r.heap[k] == st.heap[k]
  {
    st.(heap := st.heap[st.builderList := st.heap[st.builderList] + values])
  }

  /** `buildCreate` / `buildDelete` as written: the constructor sorts the
      builder's list in place and the action keeps a view of that list. */
  function BuildAsWritten(st: State, action: string): (r: (State, SharedAction))
    requires Live(st)
    ensures Live(r.0) && r.0.builderList == st.builderList
    ensures r.1.list == st.builderList
    ensures Sorted(r.0.heap[r.1.list])
    ensures multiset(r.0.heap[r.1.list]) == multiset(st.heap[st.builderList])
  {
    (st.(heap := st.heap[st.builderList := Sort(st.heap[st.builderList])]), SharedAction(action, st.builderList))
  }

  /** What the action's `getResourceRecords` returns in state `st`. */
  function View(st: State, a: SharedAction): seq<string>
    requires a.list in st.heap
  {
    st.heap[a.list]
  }

  /** Values added to the builder after a build show up in the action
      built before. */
  lemma LaterValuesReachEarlierAction(st: State, action: string, more: seq<string>)
    requires Live(st)
    ensures var (built, a) := BuildAsWritten(st, action);
            View(AddValues(built, more), a) == View(built, a) + more
  {
  }

  /** Sorting "b", "a" gives "a", "b". */
  lemma SortTwo()
    ensures Sort(["b", "a"]) == ["a", "b"]
  {
    var sorted: seq<string> := ["a", "b"];
    assert Le(sorted[0], sorted[1]) by {
      assert CompareStrings("a", "b") < 0;
    }
    assert multiset(sorted) == multiset(["b", "a"]);
    SortOfSorted(sorted);
    SortOfPermutation(sorted, ["b", "a"]);
  }

  /** The builder holds "b", "a"; `buildCreate` gives an action reading
      ["a", "b"]; adding "0" to the builder afterwards turns that action's
      values into ["a", "b", "0"], which is no longer sorted. */
  lemma ReusedBuilderUnsortsEarlierAction()
    ensures var st := AddValues(NewState(), ["b", "a"]);
            var (built, x) := BuildAsWritten(st, "CREATE");
            && View(built, x) == ["a", "b"]
            && View(AddValues(built, ["0"]), x) == ["a", "b", "0"]
            && !Sorted(View(AddValues(built, ["0"]), x))
  {
    var st := AddValues(NewState(), ["b", "a"]);
    assert st.heap[0] == ["b", "a"];
    SortTwo();
    var (built, x) := BuildAsWritten(st, "CREATE");
    var after := AddValues(built, ["0"]);
    assert View(after, x) == ["a", "b", "0"];
    assert !Le(View(after, x)[1], View(after, x)[2]) by {
      assert CompareStrings("b", "0") > 0;
    }
  }
}
