/** The 4GTV channel records shared by the two channel-list scripts and the guide
    builder: JSON values as the scripts see them, the channel-name blocklist, and
    the loop that extracts four fields from each channel the blocklist lets through. */
module FourGtv {
  import opened Outcome
  import opened Text

  /** A JSON value as the scripts use it: a string, `null` (Python's `None`), or
      any other value, carried as the text `str()` gives for it. */
  datatype Value = Str(s: string) | Null | Other(text: string)

  /** `str(v)`, which is how an f-string prints a value. */
  function Display(v: Value): string
  {
    match v
    case Str(s) => s
    case Null => "None"
    case Other(t) => t
  }

  /** An element of a JSON list: an object with its members, or something else. */
  datatype Item = Record(fields: map<string, Value>) | NotObject

  /** `obj.get(key)`: `None` when the key is absent. */
  function Get(fields: map<string, Value>, key: string): Value
  {
    if key in fields then fields[key] else Null
  }

  /** The `Data` member of the channel API's answer. An empty object or empty string
      (`EmptyContainer`) iterates as no elements; any other non-list value raises
      when iterated or when its elements are read. */
  datatype DataField = Absent | ListOf(items: seq<Item>) | EmptyContainer | OtherValue

  /** The parsed answer: an object with its `Data` member, or some other JSON value. */
  datatype Document = Object(data: DataField) | NotAnObject

  /** `BLOCKED_CHANNELS`. */
  const Blocked: seq<string> := ["鳳梨直擊台", "香蕉直擊台", "芭樂直擊台"]

  /** `any(blocked in channel_name for blocked in BLOCKED_CHANNELS)`: a substring test,
      not an equality test. */
  predicate IsBlocked(name: string)
  {
    exists i :: 0 <= i < |Blocked| && Contains(name, Blocked[i])
  }

  /** A name is blocked exactly when one of the blocked strings occurs in it:
      whatever surrounds it, and never in the empty name. */
  lemma BlockedSpec(a: string, b: string, i: nat)
    requires i < |Blocked|
    ensures IsBlocked(a + Blocked[i] + b)
    ensures !IsBlocked("")
  {
    var n := a + Blocked[i] + b;
    assert n[|a|..|a| + |Blocked[i]|] == Blocked[i];
    assert OccursAt(n, Blocked[i], |a|);
    assert forall j :: 0 <= j < |Blocked| ==> |Blocked[j]| > 0;
  }

  /** A channel record as the scripts write it: the name the blocklist saw, and the
      id, logo and description as read (`None` when absent). */
  datatype Extracted = Extracted(name: string, id: Value, logo: Value, description: Value)

  /** `channel.get("fsNAME", "")` as the blocklist test can use it: an absent name is
      empty; a name that is not a string makes the `in` test raise, and an element
      that is not an object makes `.get` raise. */
  function NameOf(item: Item): Option<string>
  {
    match item
    case NotObject => None
    case Record(o) =>
      if "fsNAME" !in o then Some("")
      else
        match o["fsNAME"]
        case Str(s) => Some(s)
        case _ => None
  }

  /** One pass of the loop: a blocked channel is skipped, any other gives its record. */
  function Kept(item: Item): Option<Extracted>
  {
    match NameOf(item)
    case None => None
    case Some(n) =>
      if IsBlocked(n) then None
      else
        var o := item.fields;
        Some(Extracted(n, Get(o, "fs4GTV_ID"), Get(o, "fsLOGO_MOBILE"), Get(o, "fsDESCRIPTION")))
  }

  /** The extraction loop over `Data`: the records of the channels not blocked, in
      order; an element the loop cannot read ends the script (`exit(1)`). */
  function Extract(items: seq<Item>): Result<seq<Extracted>>
  {
    if forall i :: 0 <= i < |items| ==> NameOf(items[i]).Some? then Ok(FilterMap(items, Kept))
    else Raised("exit")
  }

  /** The loop succeeds exactly when every element is readable. Its records are then
      the unblocked elements' fields, none of them blocked, in input order (each
      record comes from a later element than the one before), and the records and
      the skipped channels together account for every element. */
  lemma ExtractSpec(items: seq<Item>)
    ensures Extract(items).Ok? <==> forall i :: 0 <= i < |items| ==> NameOf(items[i]).Some?
    ensures Extract(items).Ok? ==>
      var rs := Extract(items).value;
      var idx := KeptIndices(items, Kept);
      && |rs| + Rejected(items, Kept) == |items|
      && |idx| == |rs|
      && (forall k :: 0 <= k < |rs| ==>
            && idx[k] < |items|
            && NameOf(items[idx[k]]) == Some(rs[k].name)
            && !IsBlocked(rs[k].name)
            && rs[k].id == Get(items[idx[k]].fields, "fs4GTV_ID")
            && rs[k].logo == Get(items[idx[k]].fields, "fsLOGO_MOBILE")
            && rs[k].description == Get(items[idx[k]].fields, "fsDESCRIPTION"))
      && (forall k, l :: 0 <= k < l < |rs| ==> idx[k] < idx[l])
      && (forall i :: 0 <= i < |items| && !IsBlocked(NameOf(items[i]).value) ==> i in idx)
  {
    if Extract(items).Ok? {
      FilterMapCount(items, Kept);
      FilterMapOrder(items, Kept);
    }
  }

  /** A channel without `fsNAME` is kept, under the empty name. */
  lemma NamelessKept(o: map<string, Value>)
    requires "fsNAME" !in o
    ensures Extract([Record(o)]) == Ok([Extracted("", Get(o, "fs4GTV_ID"), Get(o, "fsLOGO_MOBILE"), Get(o, "fsDESCRIPTION"))])
  {
    BlockedSpec("", "", 0);
    var xs := [Record(o)];
    assert xs[1..] == [];
    var r := Extracted("", Get(o, "fs4GTV_ID"), Get(o, "fsLOGO_MOBILE"), Get(o, "fsDESCRIPTION"));
    assert Kept(xs[0]) == Some(r);
    assert forall i :: 0 <= i < |xs| ==> NameOf(xs[i]).Some?;
    assert FilterMap(xs[1..], Kept) == [];
    assert FilterMap(xs, Kept) == [r];
  }
}
