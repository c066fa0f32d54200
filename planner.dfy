/**
 * How `run_query` turns the planner model's reply into a plan (orchestrator lines 111-134):
 * strip the reply, cut out a fenced block, parse it as JSON, pick the list, and fall back to
 * the fixed four-store order when parsing raises.
 */
module Planner {
  import opened Wrappers
  import opened PyStr
  import PyDict
  import opened Json
  import SqlGate

  const JsonFence: string := "```json"

  /** The plan used when the reply cannot be parsed (line 132). */
  const DefaultPlan: seq<string> := ["ShopCore", "ShipStream", "PayGuard", "CareDesk"]

  function DefaultPlanJson(): Json {
    JList([JStr("ShopCore"), JStr("ShipStream"), JStr("PayGuard"), JStr("CareDesk")])
  }

  /** Lines 114-117: the text handed to `json.loads`, from the already stripped reply. */
  function ExtractPlanText(content: string): string {
    if Contains(content, JsonFence) then
      Strip(Split(Split(content, JsonFence)[1], SqlGate.Fence)[0])
    else if Contains(content, SqlGate.Fence) then
      Strip(Split(Split(content, SqlGate.Fence)[1], SqlGate.Fence)[0])
    else
      content
  }

  /**
   * In `t`, the first "```" starts one or two characters before the first "```json", so the two
   * overlap (as in "````json"): then the cut at "```json" comes first.
   */
  predicate FenceOverlapsJsonFence(t: string) {
    && IndexOf(t, SqlGate.Fence).Some?
    && IndexOf(t, JsonFence).Some?
    && IndexOf(t, SqlGate.Fence).value < IndexOf(t, JsonFence).value < IndexOf(t, SqlGate.Fence).value + 3
  }

  lemma IndexOfIs(s: string, p: string, j: nat)
    requires OccursAt(s, p, j)
    requires forall k :: 0 <= k < j ==> !OccursAt(s, p, k)
    ensures IndexOf(s, p) == Some(j)
  {
  }

  lemma OccursInPrefix(s: string, p: string, n: nat, k: int)
    requires n <= |s|
    ensures OccursAt(s[..n], p, k) <==> OccursAt(s, p, k) && k + |p| <= n
  {
    if 0 <= k && k + |p| <= n {
      assert s[..n][k..k + |p|] == s[k..k + |p|];
    }
  }

  /** An occurrence of "```json" is an occurrence of "```". */
  lemma JsonFenceIsFence(s: string, k: int)
    requires OccursAt(s, JsonFence, k)
    ensures OccursAt(s, SqlGate.Fence, k)
  {
    assert s[k..k + 3] == s[k..k + 7][..3];
  }

  /** Cutting at the first `p` and then again at the first `p` cuts once. */
  lemma UpToTwice(t: string, p: string)
    requires |p| > 0
    ensures UpTo(UpTo(t, p), p) == UpTo(t, p)
  {
    if IndexOf(t, p).Some? {
      var i := IndexOf(t, p).value;
      forall k ensures !OccursAt(t[..i], p, k) {
        OccursInPrefix(t, p, i, k);
      }
    }
  }

  /** Cutting at the first "```json" and then at the first "```". */
  lemma UpToJsonThenFence(t: string)
    ensures UpTo(UpTo(t, JsonFence), SqlGate.Fence) ==
      if FenceOverlapsJsonFence(t) then UpTo(t, JsonFence) else UpTo(t, SqlGate.Fence)
  {
    var F := SqlGate.Fence;
    if IndexOf(t, JsonFence).Some? {
      var i := IndexOf(t, JsonFence).value;
      JsonFenceIsFence(t, i);
      var j := IndexOf(t, F).value;
      var u := t[..i];
      if j + 3 <= i {
        OccursInPrefix(t, F, i, j);
        forall k | 0 <= k < j ensures !OccursAt(u, F, k) {
          OccursInPrefix(t, F, i, k);
        }
        IndexOfIs(u, F, j);
      } else {
        // j == i, or the overlap: no "```" ends inside t[..i]
        forall k ensures !OccursAt(u, F, k) {
          OccursInPrefix(t, F, i, k);
        }
      }
    }
  }

  /**
   * With a "```json" fence, `json.loads` sees the text after the first "```json" up to the next
   * "```" (or up to the next "```json" when a "```" overlaps it), stripped.
   */
  lemma ExtractFromJsonFence(content: string)
    requires Contains(content, JsonFence)
    ensures var t := After(content, JsonFence);
      ExtractPlanText(content) ==
        Strip(if FenceOverlapsJsonFence(t) then UpTo(t, JsonFence) else UpTo(t, SqlGate.Fence))
  {
    UpToJsonThenFence(After(content, JsonFence));
  }

  /** With only plain fences, `json.loads` sees the text between the first and second "```", stripped. */
  lemma ExtractFromPlainFence(content: string)
    requires !Contains(content, JsonFence) && Contains(content, SqlGate.Fence)
    ensures ExtractPlanText(content) == Strip(UpTo(After(content, SqlGate.Fence), SqlGate.Fence))
  {
    UpToTwice(After(content, SqlGate.Fence), SqlGate.Fence);
  }

  /** Without any fence the stripped reply is parsed as it is. */
  lemma ExtractWithoutFence(content: string)
    requires !Contains(content, SqlGate.Fence)
    ensures ExtractPlanText(content) == content
  {
    if Contains(content, JsonFence) {
      JsonFenceIsFence(content, IndexOf(content, JsonFence).value);
      ContainsIff(content, SqlGate.Fence);
    }
  }

  /** The entry at index `i` is the first list-valued entry of the dict. */
  predicate IsFirstListAt(fields: PyDict.Dict<Json>, i: int) {
    0 <= i < |fields| && fields[i].1.JList? && forall j :: 0 <= j < i ==> !fields[j].1.JList?
  }

  /** Lines 126-129: the first list among the dict's values, in key order. */
  function FirstList(fields: PyDict.Dict<Json>): (r: Option<Json>)
    ensures r.Some? ==> exists i :: IsFirstListAt(fields, i) && fields[i].1 == r.value
    ensures r.None? ==> forall i :: 0 <= i < |fields| ==> !fields[i].1.JList?
  {
    if |fields| == 0 then None
    else if fields[0].1.JList? then
      assert IsFirstListAt(fields, 0);
      Some(fields[0].1)
    else
      var r := FirstList(fields[1..]);
      if r.Some? then
        var i :| IsFirstListAt(fields[1..], i) && fields[1..][i].1 == r.value;
        assert IsFirstListAt(fields, i + 1);
        r
      else
        r
  }

  /** `data.get("plan", [])` */
  function PlanField(fields: PyDict.Dict<Json>): Json {
    PyDict.Get(fields, "plan").GetOr(JList([]))
  }

  /**
   * Lines 121-129: the value bound to `plan` by a parsed reply; `None` when the reply is a JSON
   * scalar, which leaves `plan` unbound.
   */
  function ChoosePlan(data: Json): (plan: Option<Json>)
    ensures data.JList? ==> plan == Some(data)
    ensures data.JObj? && Truthy(PlanField(data.fields)) ==> plan == Some(PlanField(data.fields))
    ensures data.JObj? && !Truthy(PlanField(data.fields)) ==>
      (exists i :: IsFirstListAt(data.fields, i) && plan == Some(data.fields[i].1))
      || ((forall i :: 0 <= i < |data.fields| ==> !data.fields[i].1.JList?)
          && plan == Some(PlanField(data.fields)))
    ensures !data.JList? && !data.JObj? ==> plan.None?
  {
    match data
    case JList(_) => Some(data)
    case JObj(fields) =>
      var p := PlanField(fields);
      if Truthy(p) then Some(p)
      else
        (match FirstList(fields)
         case Some(l) => Some(l)
         case None => Some(p))
    case _ => None
  }

  /**
   * Lines 111-132: the plan a planner reply yields. `loads` is `json.loads`, `None` when it
   * raises; a raise inside the `try` selects the default plan.
   */
  function PlanFromReply(reply: string, loads: string -> Option<Json>): Option<Json> {
    match loads(ExtractPlanText(Strip(reply)))
    case None => Some(DefaultPlanJson())
    case Some(data) => ChoosePlan(data)
  }

  predicate AllStrings(items: seq<Json>) {
    forall i :: 0 <= i < |items| ==> items[i].JStr?
  }

  /**
   * What `", ".join(plan)` (line 134) joins and `for db_name in plan` (line 141) visits: the
   * strings of a list, the characters of a string, the keys of a dict. `None` where `join`
   * raises a TypeError.
   */
  function PlanNames(plan: Json): (names: Option<seq<string>>)
    ensures plan.JList? && AllStrings(plan.items) ==>
      names.Some? && |names.value| == |plan.items|
      && forall i :: 0 <= i < |plan.items| ==> names.value[i] == plan.items[i].s
    ensures plan.JList? && !AllStrings(plan.items) ==> names.None?
    ensures (plan.JNull? || plan.JBool? || plan.JInt? || plan.JReal?) ==> names.None?
  {
    match plan
    case JList(items) =>
      if AllStrings(items) then Some(seq(|items|, i requires 0 <= i < |items| => items[i].s)) else None
    case JStr(s) => Some(seq(|s|, i requires 0 <= i < |s| => [s[i]]))
    case JObj(fields) => Some(PyDict.Keys(fields))
    case _ => None
  }

  /** Line 134: the first thought-log entry of a run. */
  function PlanEntry(names: seq<string>): string {
    "Planner decided on: " + Join(", ", names)
  }

  /** The fallback plan names the four stores in their fixed order. */
  lemma DefaultPlanNames()
    ensures PlanNames(DefaultPlanJson()) == Some(DefaultPlan)
  {
    var items := DefaultPlanJson().items;
    assert AllStrings(items);
    var names := PlanNames(DefaultPlanJson()).value;
    assert |names| == 4;
    assert names[0] == "ShopCore" && names[1] == "ShipStream";
    assert names[2] == "PayGuard" && names[3] == "CareDesk";
    assert names == DefaultPlan;
  }

  /** A reply that `json.loads` rejects yields exactly the four stores in their fixed order. */
  lemma UnparsableReplyUsesDefault(reply: string, loads: string -> Option<Json>)
    requires loads(ExtractPlanText(Strip(reply))).None?
    ensures PlanFromReply(reply, loads) == Some(DefaultPlanJson())
    ensures PlanNames(PlanFromReply(reply, loads).value) == Some(DefaultPlan)
  {
    DefaultPlanNames();
  }

  /** The entry logged for the default plan. */
  lemma DefaultPlanEntry()
    ensures PlanEntry(DefaultPlan) ==
      "Planner decided on: " + "ShopCore" + ", " + "ShipStream" + ", " + "PayGuard" + ", " + "CareDesk"
  {
    var a, b, c, d := "ShopCore", "ShipStream", "PayGuard", "CareDesk";
    assert DefaultPlan == [a, b, c, d];
    assert [a, b, c, d][1..] == [b, c, d];
    assert [b, c, d][1..] == [c, d];
    assert [c, d][1..] == [d];
    assert Join(", ", [c, d]) == c + ", " + d;
    assert Join(", ", [b, c, d]) == b + ", " + (c + ", " + d);
    assert Join(", ", [a, b, c, d]) == a + ", " + (b + ", " + (c + ", " + d));
  }

  /** Python's name for the type of a JSON value, as a `TypeError` reports it. */
  function TypeName(v: Json): string {
    match v
    case JNull => "NoneType"
    case JBool(_) => "bool"
    case JInt(_) => "int"
    case JReal(_) => "float"
    case JStr(_) => "str"
    case JList(_) => "list"
    case JObj(_) => "dict"
  }

  /** The index of the first item that is not a string. */
  function FirstNonString(items: seq<Json>): (i: nat)
    requires !AllStrings(items)
    ensures i < |items| && !items[i].JStr?
    ensures forall k :: 0 <= k < i ==> items[k].JStr?
  {
    if !items[0].JStr? then 0
    else
      assert !AllStrings(items[1..]) by {
        var k :| 0 <= k < |items| && !items[k].JStr?;
        assert items[1..][k - 1] == items[k];
      }
      1 + FirstNonString(items[1..])
  }

  /**
   * The text of the TypeError `", ".join(plan)` raises (line 134): a list names its first item
   * that is not a string, anything else is not iterable as strings at all.
   */
  function JoinError(plan: Json): string
  {
    if plan.JList? && !AllStrings(plan.items) then
      var i := FirstNonString(plan.items);
      "sequence item " + NatToString(i) + ": expected str instance, " + TypeName(plan.items[i]) + " found"
    else "can only join an iterable"
  }
}
