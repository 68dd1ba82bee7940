/** `autorecycle_invoke_stepfunctions/aws.py`: the autorecycle tags of an Auto
    Scaling group, read from `describe_tags`, and the cached Step Functions
    client. */
module AsgTags {
  import opened Wrappers
  import Seqs
  import opened Strs
  import opened ComponentDetails

  datatype TagKind = StringTag | BooleanTag

  /** `autorecycle_tag_names`, in declaration order. */
  const TagNames: seq<(string, TagKind)> := [
    ("autorecycle_override_component_name", StringTag),
    ("autorecycle_recycle_on_asg_update", BooleanTag),
    ("autorecycle_strategy", StringTag),
    ("autorecycle_slack_monitoring_channel", StringTag),
    ("autorecycle_notify_pager_duty", BooleanTag),
    ("autorecycle_team", StringTag),
    ("autorecycle_step_function_name", StringTag),
    ("autorecycle_dry_run", BooleanTag)
  ]

  /** The declared names of kind `kind`, in declaration order. */
  function NamesOfKind(kind: TagKind): (r: seq<string>)
    ensures forall k :: 0 <= k < |r| ==> (r[k], kind) in TagNames
    ensures forall k :: 0 <= k < |TagNames| && TagNames[k].1 == kind ==> TagNames[k].0 in r
  {
    KindFilter(TagNames, kind)
  }

  /** The two comprehensions of `get_autorecycling_tags` list exactly these
      declarations, in this order: five string tags and three boolean tags. */
  lemma NamesOfKindValues()
    ensures NamesOfKind(StringTag) == [TagNames[0].0, TagNames[2].0, TagNames[3].0, TagNames[5].0, TagNames[6].0]
    ensures NamesOfKind(BooleanTag) == [TagNames[1].0, TagNames[4].0, TagNames[7].0]
  {
    StringTagsListed();
    BooleanTagsListed();
    KindFilterFrom(TagNames, 0, StringTag);
    KindFilterFrom(TagNames, 0, BooleanTag);
    assert TagNames[0..] == TagNames;
  }

  lemma StringTagsListed()
    ensures KindsFrom(TagNames, 0, StringTag) == [TagNames[0].0, TagNames[2].0, TagNames[3].0, TagNames[5].0, TagNames[6].0]
  {
    var d := TagNames;
    assert KindsFrom(d, 8, StringTag) == [];
    assert KindsFrom(d, 7, StringTag) == [];
    assert KindsFrom(d, 6, StringTag) == [d[6].0];
    assert KindsFrom(d, 5, StringTag) == [d[5].0, d[6].0];
    assert KindsFrom(d, 4, StringTag) == [d[5].0, d[6].0];
    assert KindsFrom(d, 3, StringTag) == [d[3].0, d[5].0, d[6].0];
    assert KindsFrom(d, 2, StringTag) == [d[2].0, d[3].0, d[5].0, d[6].0];
    assert KindsFrom(d, 1, StringTag) == [d[2].0, d[3].0, d[5].0, d[6].0];
  }

  lemma BooleanTagsListed()
    ensures KindsFrom(TagNames, 0, BooleanTag) == [TagNames[1].0, TagNames[4].0, TagNames[7].0]
  {
    var d := TagNames;
    assert KindsFrom(d, 8, BooleanTag) == [];
    assert KindsFrom(d, 7, BooleanTag) == [d[7].0];
    assert KindsFrom(d, 6, BooleanTag) == [d[7].0];
    assert KindsFrom(d, 5, BooleanTag) == [d[7].0];
    assert KindsFrom(d, 4, BooleanTag) == [d[4].0, d[7].0];
    assert KindsFrom(d, 3, BooleanTag) == [d[4].0, d[7].0];
    assert KindsFrom(d, 2, BooleanTag) == [d[4].0, d[7].0];
    assert KindsFrom(d, 1, BooleanTag) == [d[1].0, d[4].0, d[7].0];
  }

  /** The filter of `names[i..]`, one declaration at a time. */
  function KindsFrom(names: seq<(string, TagKind)>, i: nat, kind: TagKind): seq<string>
    decreases |names| - i
  {
    if i >= |names| then [] else (if names[i].1 == kind then [names[i].0] else []) + KindsFrom(names, i + 1, kind)
  }

  lemma {:induction false} KindFilterFrom(names: seq<(string, TagKind)>, i: nat, kind: TagKind)
    requires i <= |names|
    ensures KindFilter(names[i..], kind) == KindsFrom(names, i, kind)
    decreases |names| - i
  {
    if i < |names| {
      KindFilterFrom(names, i + 1, kind);
      assert names[i..][1..] == names[i + 1..];
    }
  }

  /** `[k for k, v in names if v == kind]`. */
  function KindFilter(names: seq<(string, TagKind)>, kind: TagKind): (r: seq<string>)
    ensures forall k :: 0 <= k < |r| ==> (r[k], kind) in names
    ensures forall k :: 0 <= k < |names| && names[k].1 == kind ==> names[k].0 in r
    decreases |names|
  {
    if names == [] then []
    else if names[0].1 == kind then
      var rest := KindFilter(names[1..], kind);
      assert forall k :: 1 <= k < |names| ==> names[k] == names[1..][k - 1];
      [names[0].0] + rest
    else
      assert forall k :: 1 <= k < |names| ==> names[k] == names[1..][k - 1];
      KindFilter(names[1..], kind)
  }

  /** The names of a declaration list, in order. */
  function NamesIn(names: seq<(string, TagKind)>): (r: seq<string>)
    ensures |r| == |names| && forall k :: 0 <= k < |names| ==> r[k] == names[k].0
  {
    seq(|names|, k requires 0 <= k < |names| => names[k].0)
  }

  /** The selected names keep their declaration order. */
  lemma {:induction false} KindFilterInOrder(names: seq<(string, TagKind)>, kind: TagKind)
    ensures Seqs.IsSubsequence(KindFilter(names, kind), NamesIn(names))
    decreases |names|
  {
    if names != [] {
      KindFilterInOrder(names[1..], kind);
      var rest := KindFilter(names[1..], kind);
      assert NamesIn(names)[1..] == NamesIn(names[1..]);
      if names[0].1 == kind {
        assert ([names[0].0] + rest)[1..] == rest;
      } else {
        Seqs.SubsequenceOfTail(rest, NamesIn(names));
      }
    }
  }

  /** `list(autorecycle_tag_names.keys())`. */
  function DeclaredNames(): (r: seq<string>)
    ensures |r| == |TagNames| && forall k :: 0 <= k < |TagNames| ==> r[k] == TagNames[k].0
  {
    NamesIn(TagNames)
  }

  /** A filter of the `describe_tags` request. */
  datatype TagFilter = TagFilter(name: string, values: seq<string>)

  /** The request filters: the group, and exactly the declared keys in
      declaration order. */
  function TagFilters(asgName: string): (r: seq<TagFilter>)
    ensures |r| == 2 && r[0] == TagFilter("auto-scaling-group", [asgName])
    ensures r[1].name == "key" && r[1].values == DeclaredNames()
  {
    [TagFilter("auto-scaling-group", [asgName]), TagFilter("key", DeclaredNames())]
  }

  /** A tag of the `describe_tags` answer. */
  datatype ResponseTag = ResponseTag(key: string, value: string)

  /** `_get_tag_values(tags_list, tag_name)`. */
  function TagValues(response: seq<ResponseTag>, name: string): (r: seq<string>)
    ensures forall v :: v in r <==> ResponseTag(name, v) in response
    decreases |response|
  {
    if response == [] then []
    else (if response[0].key == name then [response[0].value] else []) + TagValues(response[1..], name)
  }

  /** The first value of the first tag with key `name`. */
  lemma TagValuesFirst(response: seq<ResponseTag>, name: string, k: nat)
    requires k < |response| && response[k].key == name
    requires forall j :: 0 <= j < k ==> response[j].key != name
    ensures TagValues(response, name) != [] && TagValues(response, name)[0] == response[k].value
    decreases k
  {
    if k > 0 {
      TagValuesFirst(response[1..], name, k - 1);
    }
  }

  /** The stored value: the text verbatim, or `value.lower() == "true"`. */
  function Convert(kind: TagKind, value: string): TagValue {
    match kind
    case StringTag => Text(value)
    case BooleanTag => Flag(Lower(value) == "true")
  }

  /** `_add_tag` / `_add_boolean_tag` on the dictionary `tags`. */
  function AddTag(tags: map<string, TagValue>, name: string, kind: TagKind, response: seq<ResponseTag>): map<string, TagValue> {
    var values := TagValues(response, name);
    if values != [] then tags[name := Convert(kind, values[0])] else tags
  }

  /** `tags` after adding each of `names` in turn. */
  function AddAll(tags: map<string, TagValue>, names: seq<string>, kind: TagKind, response: seq<ResponseTag>): map<string, TagValue>
    decreases |names|
  {
    if names == [] then tags
    else AddTag(AddAll(tags, names[..|names| - 1], kind, response), names[|names| - 1], kind, response)
  }

  /** The tags of the answer, string tags first and boolean tags second. */
  function AutorecyclingTags(response: seq<ResponseTag>): map<string, TagValue> {
    AddAll(AddAll(map[], NamesOfKind(StringTag), StringTag, response), NamesOfKind(BooleanTag), BooleanTag, response)
  }

  /** Adding `names` keeps earlier entries of other names and stores, for each
      name with a value, the converted first value. */
  lemma {:induction false} AddAllEntries(tags: map<string, TagValue>, names: seq<string>, kind: TagKind,
                                         response: seq<ResponseTag>)
    ensures var r := AddAll(tags, names, kind, response);
      forall n :: n in r <==> n in tags || (n in names && TagValues(response, n) != [])
    ensures var r := AddAll(tags, names, kind, response);
      forall n :: n in names && TagValues(response, n) != [] ==> r[n] == Convert(kind, TagValues(response, n)[0])
    ensures var r := AddAll(tags, names, kind, response);
      forall n :: n !in names && n in tags ==> r[n] == tags[n]
    decreases |names|
  {
    if names != [] {
      var init := names[..|names| - 1];
      AddAllEntries(tags, init, kind, response);
      assert forall n :: n in names <==> n in init || n == names[|names| - 1];
    }
  }

  /** Only declared tags present in the answer are stored, each converted
      by its declared kind from its first value. */
  lemma AutorecyclingTagsEntries(response: seq<ResponseTag>)
    ensures var tags := AutorecyclingTags(response);
      forall n :: n in tags ==> n in NamesOfKind(StringTag) || n in NamesOfKind(BooleanTag)
    ensures var tags := AutorecyclingTags(response);
      forall n :: n in NamesOfKind(StringTag) && TagValues(response, n) != [] ==>
                    n in tags && tags[n] == Text(TagValues(response, n)[0])
    ensures var tags := AutorecyclingTags(response);
      forall n :: n in NamesOfKind(BooleanTag) && TagValues(response, n) != [] ==>
                    n in tags && tags[n] == Flag(Lower(TagValues(response, n)[0]) == "true")
  {
    var strings := AddAll(map[], NamesOfKind(StringTag), StringTag, response);
    AddAllEntries(map[], NamesOfKind(StringTag), StringTag, response);
    AddAllEntries(strings, NamesOfKind(BooleanTag), BooleanTag, response);
    KindsDisjoint();
  }

  /** No declared name is both a string tag and a boolean tag: the declared
      names have different lengths, and the boolean ones are those of length
      19, 29 or 33. */
  lemma KindsDisjoint()
    ensures forall n :: n in NamesOfKind(StringTag) ==> n !in NamesOfKind(BooleanTag)
  {
    assert forall k :: 0 <= k < |TagNames| ==> (TagNames[k].1 == BooleanTag <==> |TagNames[k].0| in {19, 29, 33});
  }

  /** One loop of `get_autorecycling_tags`: add each of `names` in turn. */
  method AddTags(tags: map<string, TagValue>, names: seq<string>, kind: TagKind, response: seq<ResponseTag>)
    returns (r: map<string, TagValue>)
    ensures r == AddAll(tags, names, kind, response)
  {
    r := tags;
    for i := 0 to |names|
      invariant r == AddAll(tags, names[..i], kind, response)
    {
      assert names[..i + 1][..i] == names[..i];
      r := AddTag(r, names[i], kind, response);
    }
    assert names[..|names|] == names;
  }

  /** `get_autorecycling_tags` on the tag answer: the string tags, then the
      boolean tags. */
  method GetAutorecyclingTags(response: seq<ResponseTag>) returns (tags: map<string, TagValue>)
    ensures tags == AutorecyclingTags(response)
  {
    tags := AddTags(map[], NamesOfKind(StringTag), StringTag, response);
    tags := AddTags(tags, NamesOfKind(BooleanTag), BooleanTag, response);
  }

  /** The module-global `sf_client`, created on first use and reused. */
  class StepFunctionsClient {
    var client: Option<int>

    constructor ()
      ensures client == None
    {
      client := None;
    }

    /** `get_stepfunctions_client()`; `created` is the client `boto3.client`
        would return. */
    method Get(created: int) returns (c: int)
      modifies this
      ensures old(client).Some? ==> client == old(client) && c == old(client).value
      ensures old(client).None? ==> client == Some(created) && c == created
    {
      if client.None? {
        client := Some(created);
      }
      c := client.value;
    }
  }
}
