/** The status counts behind the task pie chart
    (frontend/src/components/TaskPieChart.jsx). Only the counts and the
    denominator are modelled; the percentages are floating point. */
module PieChart {
  datatype Slice = Slice(name: string, value: nat)

  /** The keys of the `counts` object, in its insertion order. */
  const StatusNames: seq<string> := ["Completed", "In-Progress", "To-Do"]

  predicate KnownStatus(status: string)
  {
    status == "Completed" || status == "In-Progress" || status == "To-Do"
  }

  /** How many of `statuses` are exactly `name`. */
  function CountOf(statuses: seq<string>, name: string): (n: nat)
    ensures n <= |statuses|
  {
    if statuses == [] then 0
    else CountOf(statuses[..|statuses| - 1], name) + (if statuses[|statuses| - 1] == name then 1 else 0)
  }

  /** `buildData(tasks)`, given the tasks' statuses: one pass that counts the
      three known statuses and ignores every other, then one slice per
      status in the fixed order, and the denominator `tasks.length || 1`. */
  method BuildData(statuses: seq<string>) returns (data: seq<Slice>, total: nat)
    ensures |data| == |StatusNames| == 3
    ensures forall k :: 0 <= k < |data| ==> data[k] == Slice(StatusNames[k], CountOf(statuses, StatusNames[k]))
    ensures total >= 1
    ensures total == if statuses == [] then 1 else |statuses|
  {
    var completed, inProgress, toDo := 0, 0, 0;
    var i := 0;
    while i < |statuses|
      invariant 0 <= i <= |statuses|
      invariant completed == CountOf(statuses[..i], "Completed")
      invariant inProgress == CountOf(statuses[..i], "In-Progress")
      invariant toDo == CountOf(statuses[..i], "To-Do")
    {
      var seen := statuses[..i + 1];
      assert seen[..i] == statuses[..i];
      if statuses[i] == "Completed" {
        completed := completed + 1;
      } else if statuses[i] == "In-Progress" {
        inProgress := inProgress + 1;
      } else if statuses[i] == "To-Do" {
        toDo := toDo + 1;
      }
      i := i + 1;
    }
    assert statuses[..i] == statuses;
    data := [Slice("Completed", completed), Slice("In-Progress", inProgress), Slice("To-Do", toDo)];
    total := if |statuses| == 0 then 1 else |statuses|;
  }

  /** The three counts never exceed the number of tasks, and they add up to
      it exactly when every status is one of the three. */
  lemma {:induction false} CountsCoverKnown(statuses: seq<string>)
    ensures CountOf(statuses, "Completed") + CountOf(statuses, "In-Progress") + CountOf(statuses, "To-Do") <= |statuses|
    ensures CountOf(statuses, "Completed") + CountOf(statuses, "In-Progress") + CountOf(statuses, "To-Do") == |statuses|
      <==> forall k :: 0 <= k < |statuses| ==> KnownStatus(statuses[k])
  {
    if statuses != [] {
      var prefix := statuses[..|statuses| - 1];
      CountsCoverKnown(prefix);
      assert forall k :: 0 <= k < |prefix| ==> prefix[k] == statuses[k];
      if !KnownStatus(statuses[|statuses| - 1]) {
        assert !(forall k :: 0 <= k < |statuses| ==> KnownStatus(statuses[k]));
      }
    }
  }

  /** The names `counts` inherits from `Object.prototype`. For these
      `counts[status] !== undefined` holds although they are not counts, and
      `+= 1` turns them into own keys; `__proto__` is left out because
      assigning a string to it is ignored. */
  const InheritedNames: set<string> := {"constructor", "hasOwnProperty", "isPrototypeOf",
    "propertyIsEnumerable", "toLocaleString", "toString", "valueOf",
    "__defineGetter__", "__defineSetter__", "__lookupGetter__", "__lookupSetter__"}

  /** The keys `Object.keys(counts)` lists as the code is written: the three
      statuses, then every inherited name some task carries as its status,
      in the order first met. */
  function KeysAsWritten(statuses: seq<string>): (keys: seq<string>)
    ensures |keys| >= 3 && keys[..3] == StatusNames
  {
    if statuses == [] then StatusNames
    else
      var prev := KeysAsWritten(statuses[..|statuses| - 1]);
      var last := statuses[|statuses| - 1];
      if last in InheritedNames && last !in prev then prev + [last] else prev
  }

  /** The extra keys are exactly the inherited names used as statuses, each
      once. */
  lemma {:induction false} ExtraKeysAreInheritedStatuses(statuses: seq<string>)
    ensures var keys := KeysAsWritten(statuses);
      && (forall k :: 3 <= k < |keys| ==> keys[k] in InheritedNames && keys[k] in statuses)
      && (forall x :: x in statuses && x in InheritedNames ==> x in keys)
      && (forall a, b :: 3 <= a < b < |keys| ==> keys[a] != keys[b])
  {
    if statuses != [] {
      var prefix := statuses[..|statuses| - 1];
      ExtraKeysAreInheritedStatuses(prefix);
      var prev := KeysAsWritten(prefix);
      assert forall x :: x in statuses ==> x in prefix || x == statuses[|statuses| - 1];
      assert forall k :: 3 <= k < |prev| ==> prev[k] in prefix;
    }
  }

  /** With no inherited name among the statuses the chart has just the
      three slices. */
  lemma {:induction false} NoInheritedStatusThreeKeys(statuses: seq<string>)
    requires forall k :: 0 <= k < |statuses| ==> statuses[k] !in InheritedNames
    ensures KeysAsWritten(statuses) == StatusNames
  {
    if statuses != [] {
      var prefix := statuses[..|statuses| - 1];
      assert forall k :: 0 <= k < |prefix| ==> prefix[k] == statuses[k];
      NoInheritedStatusThreeKeys(prefix);
    }
  }

  /** Keys are only ever appended: the keys after the tasks `front` are a
      prefix of the keys after `front + back`, so the extra keys come in the
      order their names are first met. */
  lemma {:induction false} KeysGrowInOrder(front: seq<string>, back: seq<string>)
    ensures KeysAsWritten(front) <= KeysAsWritten(front + back)
  {
    if back == [] {
      assert front + back == front;
    } else {
      var shorter := back[..|back| - 1];
      KeysGrowInOrder(front, shorter);
      var all := front + back;
      assert all[..|all| - 1] == front + shorter;
    }
  }

  /** A task whose status is "toString", which the task routes accept like
      any other string, gives the chart a fourth slice. */
  lemma InheritedStatusAddsSlice()
    ensures KeysAsWritten(["toString"]) == StatusNames + ["toString"]
    ensures |KeysAsWritten(["toString"])| == 4
  {
    var one := ["toString"];
    assert one[..0] == [];
    assert "toString" !in StatusNames;
  }
}
