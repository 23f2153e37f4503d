/**
 * The component catalogue of Backend/server.py: `ShadcnComponentParser`,
 * which turns the parsed "components.json" document into `ComponentInfo`
 * records and answers queries about them, and the string work of
 * `ReactAppGenerator` (the user prompt and the detection of the components a
 * generated program uses).
 */
module Catalogue {
  import opened Wrappers
  import opened Text

  // -----------------------------------------------------------------------
  // The parsed document and the records built from it
  // -----------------------------------------------------------------------

  /** One entry of "shadcn_components" as parsed: each field may be missing. */
  datatype RawComponent = RawComponent(
    importStatement: Option<string>,
    items: Option<seq<string>>,
    props: Option<seq<string>>)

  /** A key of "shadcn_components" with its entry, in the document's order. */
  datatype Entry = Entry(name: string, raw: RawComponent)

  /** The parsed document: "shadcn_components" may be missing. */
  datatype Document = Document(shadcnComponents: Option<seq<Entry>>)

  /** `ComponentInfo`. */
  datatype ComponentInfo = ComponentInfo(
    name: string,
    importStatement: string,
    items: seq<string>,
    props: seq<string>)

  /** The entries of the document; a missing "shadcn_components" reads as `{}`. */
  function EntriesOf(doc: Document): seq<Entry> {
    doc.shadcnComponents.GetOr([])
  }

  /** The keys of `entries`, in order. */
  function NamesOf(entries: seq<Entry>): (names: seq<string>)
    ensures |names| == |entries|
    ensures forall i :: 0 <= i < |entries| ==> names[i] == entries[i].name
  {
    seq(|entries|, i requires 0 <= i < |entries| => entries[i].name)
  }

  /** A JSON object has each key once. */
  predicate DistinctKeys(entries: seq<Entry>) {
    NoDuplicates(NamesOf(entries))
  }

  /**
   * `_load_components` after `json.load`: one record per key of
   * "shadcn_components", in the document's order, with a missing "import"
   * read as "", and missing "items" or "props" read as [].
   */
  method LoadComponents(doc: Document) returns (names: seq<string>, components: map<string, ComponentInfo>)
    requires DistinctKeys(EntriesOf(doc))
    ensures names == NamesOf(EntriesOf(doc))
    ensures NoDuplicates(names)
    ensures forall k :: k in components <==> k in names
    ensures forall e :: e in EntriesOf(doc) ==>
              components[e.name] == ComponentInfo(
                e.name,
                e.raw.importStatement.GetOr(""),
                e.raw.items.GetOr([]),
                e.raw.props.GetOr([]))
    ensures doc.shadcnComponents.None? ==> names == [] && components == map[]
  {
    var entries := EntriesOf(doc);
    names := [];
    components := map[];
    var i := 0;
    while i < |entries|
      invariant 0 <= i <= |entries|
      invariant names == NamesOf(entries[..i])
      invariant forall k :: k in components <==> k in names
      invariant forall j :: 0 <= j < i ==>
                  components[entries[j].name] == ComponentInfo(
                    entries[j].name,
                    entries[j].raw.importStatement.GetOr(""),
                    entries[j].raw.items.GetOr([]),
                    entries[j].raw.props.GetOr([]))
    {
      var e := entries[i];
      assert e.name !in names by {
        assert NamesOf(entries)[i] == e.name;
        forall j | 0 <= j < i ensures names[j] != e.name {
          assert NamesOf(entries)[j] == names[j];
        }
      }
      components := components[e.name := ComponentInfo(
        e.name,
        e.raw.importStatement.GetOr(""),
        e.raw.items.GetOr([]),
        e.raw.props.GetOr([]))];
      names := names + [e.name];
      i := i + 1;
    }
    assert entries[..i] == entries;
  }

  // -----------------------------------------------------------------------
  // The summary text
  // -----------------------------------------------------------------------

  const SummaryHeader: string := "AVAILABLE SHADCN COMPONENTS:\n\n"

  /** The heading line of one component's block. */
  function Heading(name: string): string {
    "## " + ToUpper(name) + "\n"
  }

  /** The block of one component in the summary. */
  function Block(info: ComponentInfo): string {
    Heading(info.name) + ImportLine(info) + ItemsLine(info) + PropsLine(info)
  }

  function ImportLine(info: ComponentInfo): string {
    "Import: " + info.importStatement + "\n"
  }

  function ItemsLine(info: ComponentInfo): string {
    "Items: " + Join(info.items, ", ") + "\n"
  }

  /** The props line ends the block with a blank line. */
  function PropsLine(info: ComponentInfo): string {
    "Props: " + Join(info.props, ", ") + "\n\n"
  }

  /** The summary of the records `infos`: the header, then one block per record in order. */
  function Summary(infos: seq<ComponentInfo>): (r: string)
    ensures |r| >= |SummaryHeader| && r[..|SummaryHeader|] == SummaryHeader
  {
    if infos == [] then SummaryHeader
    else
      var init := Summary(infos[..|infos| - 1]);
      assert (init + Block(infos[|infos| - 1]))[..|SummaryHeader|] == init[..|SummaryHeader|];
      init + Block(infos[|infos| - 1])
  }

  /** A block starts with its heading. */
  lemma HeadingInBlock(before: string, info: ComponentInfo)
    ensures Contains(before + Block(info), Heading(info.name))
  {
    var h := Heading(info.name);
    var rest := ImportLine(info) + ItemsLine(info) + PropsLine(info);
    AppendFour([], h, ImportLine(info), ItemsLine(info), PropsLine(info));
    assert h[0..|h|] == h;
    OccursAtContains(h, h, 0);
    ContainsWithin(before, h, rest, h);
    assert before + h + rest == before + Block(info);
  }

  /** Every record's heading, its name in upper case, appears in the summary. */
  lemma {:induction false} SummaryHasHeading(infos: seq<ComponentInfo>, i: nat)
    requires i < |infos|
    ensures Contains(Summary(infos), Heading(infos[i].name))
  {
    var last := |infos| - 1;
    var init := Summary(infos[..last]);
    var b := Block(infos[last]);
    assert Summary(infos) == init + b;
    if i == last {
      HeadingInBlock(init, infos[last]);
    } else {
      assert infos[..last][i] == infos[i];
      SummaryHasHeading(infos[..last], i);
      ContainsWithin([], init, b, Heading(infos[i].name));
      assert [] + init + b == init + b;
    }
  }

  /** The summary of `a` is the start of the summary of `a + b`, which goes on with `b`'s blocks. */
  lemma {:induction false} SummaryExtends(a: seq<ComponentInfo>, b: seq<ComponentInfo>)
    ensures |Summary(a)| <= |Summary(a + b)|
    ensures Summary(a + b)[..|Summary(a)|] == Summary(a)
  {
    if b != [] {
      assert (a + b)[..|a + b| - 1] == a + b[..|b| - 1];
      SummaryExtends(a, b[..|b| - 1]);
    } else {
      assert a + b == a;
    }
  }

  // -----------------------------------------------------------------------
  // The user prompt
  // -----------------------------------------------------------------------

  const PromptOpening: string := "Generate a React application based on this request: "
  const PromptComponents: string := "\n\nAvailable components to use: "
  const PromptRequirements: string := "\n\nRequirements:\n- Create a single app.jsx file\n- Use appropriate shadcn components from the available list\n- Make it functional and interactive\n- Ensure responsive design\n- Include proper state management\n- Add loading states and error handling where needed\n- Make it visually appealing and modern\n\nGenerate the complete app.jsx code now."

  /** What follows the request in the prompt: it depends on the component names only. */
  function PromptTail(names: seq<string>): string {
    PromptComponents + Join(names, ", ") + PromptRequirements
  }

  /**
   * `generate_user_prompt(user_request)` over the component names `names`:
   * the request, verbatim, right after the fixed opening, and the names
   * joined by ", " after it.
   */
  function UserPrompt(request: string, names: seq<string>): (r: string)
    ensures |r| == |PromptOpening| + |request| + |PromptTail(names)|
    ensures r[..|PromptOpening|] == PromptOpening
    ensures r[|PromptOpening|..|PromptOpening| + |request|] == request
    ensures r[|PromptOpening| + |request|..] == PromptTail(names)
  {
    var r := PromptOpening + request + PromptTail(names);
    assert r[|PromptOpening|..|PromptOpening| + |request|] == request;
    r
  }

  /** The request can be read back from the prompt, given the component names. */
  function PromptRequest(prompt: string, names: seq<string>): string
    requires |PromptOpening| + |PromptTail(names)| <= |prompt|
  {
    prompt[|PromptOpening|..|prompt| - |PromptTail(names)|]
  }

  /** Round trip: the request embedded in a prompt is recovered exactly, whatever it holds. */
  lemma PromptRoundTrip(request: string, names: seq<string>)
    ensures PromptRequest(UserPrompt(request, names), names) == request
  {
  }

  /** Every component name appears in the prompt. */
  lemma PromptListsComponents(request: string, names: seq<string>, i: nat)
    requires i < |names|
    ensures Contains(UserPrompt(request, names), names[i])
  {
    JoinContains(names, ", ", i);
    ContainsInTail(PromptOpening + request, PromptComponents, Join(names, ", "), PromptRequirements, names[i]);
  }

  // -----------------------------------------------------------------------
  // Detection of the components a generated program uses
  // -----------------------------------------------------------------------

  /** The "component.item" label of one use. */
  function UseLabel(component: string, item: string): string {
    component + "." + item
  }

  /** The labels of the items of `component` that occur in `code`, in item order. */
  function UsedItems(component: string, items: seq<string>, code: string): seq<string> {
    if items == [] then []
    else
      UsedItems(component, items[..|items| - 1], code)
      + (if Contains(code, items[|items| - 1]) then [UseLabel(component, items[|items| - 1])] else [])
  }

  /** The labels of every (component, item) pair whose item occurs in `code`: component order, then item order. */
  function UsedIn(infos: seq<ComponentInfo>, code: string): seq<string> {
    if infos == [] then []
    else UsedIn(infos[..|infos| - 1], code) + UsedItems(infos[|infos| - 1].name, infos[|infos| - 1].items, code)
  }

  /** The number of items over all records. */
  function TotalItems(infos: seq<ComponentInfo>): nat {
    if infos == [] then 0 else TotalItems(infos[..|infos| - 1]) + |infos[|infos| - 1].items|
  }

  /** `use` is the label of an item of record `i` that occurs in `code`. */
  predicate IsUse(infos: seq<ComponentInfo>, code: string, use: string) {
    exists i, j | 0 <= i < |infos| && 0 <= j < |infos[i].items| ::
      && Contains(code, infos[i].items[j])
      && use == UseLabel(infos[i].name, infos[i].items[j])
  }

  lemma {:induction false} UsedItemsMembers(component: string, items: seq<string>, code: string, use: string)
    ensures use in UsedItems(component, items, code)
        <==> exists j | 0 <= j < |items| :: Contains(code, items[j]) && use == UseLabel(component, items[j])
  {
    if items != [] {
      var init := items[..|items| - 1];
      UsedItemsMembers(component, init, code, use);
      if exists j | 0 <= j < |items| :: Contains(code, items[j]) && use == UseLabel(component, items[j]) {
        var j :| 0 <= j < |items| && Contains(code, items[j]) && use == UseLabel(component, items[j]);
        if j < |init| {
          assert init[j] == items[j];
        }
      }
      if exists j | 0 <= j < |init| :: Contains(code, init[j]) && use == UseLabel(component, init[j]) {
        var j :| 0 <= j < |init| && Contains(code, init[j]) && use == UseLabel(component, init[j]);
        assert items[j] == init[j];
      }
    }
  }

  /**
   * A use is reported exactly when it names an item of some record that
   * occurs in the code as a substring.
   */
  lemma {:induction false} UsedInMembers(infos: seq<ComponentInfo>, code: string, use: string)
    ensures use in UsedIn(infos, code) <==> IsUse(infos, code, use)
  {
    if infos != [] {
      var init := infos[..|infos| - 1];
      var last := infos[|infos| - 1];
      UsedInMembers(init, code, use);
      UsedItemsMembers(last.name, last.items, code, use);
      if IsUse(infos, code, use) {
        var i, j :| 0 <= i < |infos| && 0 <= j < |infos[i].items|
                    && Contains(code, infos[i].items[j])
                    && use == UseLabel(infos[i].name, infos[i].items[j]);
        if i < |init| {
          assert init[i] == infos[i];
          assert IsUse(init, code, use);
        }
      }
      if IsUse(init, code, use) {
        var i, j :| 0 <= i < |init| && 0 <= j < |init[i].items|
                    && Contains(code, init[i].items[j])
                    && use == UseLabel(init[i].name, init[i].items[j]);
        assert infos[i] == init[i];
      }
      if use in UsedItems(last.name, last.items, code) {
        var j :| 0 <= j < |last.items| && Contains(code, last.items[j]) && use == UseLabel(last.name, last.items[j]);
        assert infos[|infos| - 1].items[j] == last.items[j];
      }
    }
  }

  lemma {:induction false} UsedItemsBound(component: string, items: seq<string>, code: string)
    ensures |UsedItems(component, items, code)| <= |items|
    ensures (forall j :: 0 <= j < |items| ==> Contains(code, items[j])) ==> |UsedItems(component, items, code)| == |items|
  {
    if items != [] {
      UsedItemsBound(component, items[..|items| - 1], code);
    }
  }

  /**
   * At most one use per item is reported; when every item occurs in the
   * code, one use per item is, repeated items included.
   */
  lemma {:induction false} UsedInBound(infos: seq<ComponentInfo>, code: string)
    ensures |UsedIn(infos, code)| <= TotalItems(infos)
    ensures (forall i, j :: 0 <= i < |infos| && 0 <= j < |infos[i].items| ==> Contains(code, infos[i].items[j]))
            ==> |UsedIn(infos, code)| == TotalItems(infos)
  {
    if infos != [] {
      var init := infos[..|infos| - 1];
      var last := infos[|infos| - 1];
      UsedInBound(init, code);
      UsedItemsBound(last.name, last.items, code);
      if forall i, j :: 0 <= i < |infos| && 0 <= j < |infos[i].items| ==> Contains(code, infos[i].items[j]) {
        forall i, j | 0 <= i < |init| && 0 <= j < |init[i].items| ensures Contains(code, init[i].items[j]) {
          assert init[i] == infos[i];
        }
      }
    }
  }

  /** Detection over a catalogue split in two is the detection over each part, one after the other. */
  lemma {:induction false} UsedInAppend(a: seq<ComponentInfo>, b: seq<ComponentInfo>, code: string)
    ensures UsedIn(a + b, code) == UsedIn(a, code) + UsedIn(b, code)
  {
    if b == [] {
      assert a + b == a;
    } else {
      assert (a + b)[..|a + b| - 1] == a + b[..|b| - 1];
      UsedInAppend(a, b[..|b| - 1], code);
    }
  }

  // -----------------------------------------------------------------------
  // The parser and the generator
  // -----------------------------------------------------------------------

  /** `ShadcnComponentParser`: the records by name, in the dict's insertion order. */
  class ComponentParser {
    /** The keys of `components` in insertion order. */
    var names: seq<string>
    var components: map<string, ComponentInfo>

    ghost predicate Valid()
      reads this
    {
      && NoDuplicates(names)
      && (forall k :: k in components <==> k in names)
      && (forall k :: k in components ==> components[k].name == k)
    }

    /** `ShadcnComponentParser(path)` once the file is read and parsed into `doc`. */
    constructor (doc: Document)
      requires DistinctKeys(EntriesOf(doc))
      ensures Valid()
      ensures names == NamesOf(EntriesOf(doc))
      ensures forall e :: e in EntriesOf(doc) ==>
                components[e.name] == ComponentInfo(
                  e.name,
                  e.raw.importStatement.GetOr(""),
                  e.raw.items.GetOr([]),
                  e.raw.props.GetOr([]))
    {
      var n, c := LoadComponents(doc);
      names := n;
      components := c;
      new;
      forall k | k in components ensures components[k].name == k {
        var i :| 0 <= i < |names| && names[i] == k;
        assert EntriesOf(doc)[i] in EntriesOf(doc);
      }
    }

    /** The records in insertion order (`self.components.values()`). */
    function Infos(): (infos: seq<ComponentInfo>)
      reads this
      requires Valid()
      ensures |infos| == |names|
      ensures forall i :: 0 <= i < |names| ==> infos[i] == components[names[i]] && infos[i].name == names[i]
    {
      var ns, cs := names, components;
      seq(|ns|, i requires 0 <= i < |ns| => cs[ns[i]])
    }

    /** `get_component_list()`: every known name once, in insertion order. */
    function GetComponentList(): (r: seq<string>)
      reads this
      requires Valid()
      ensures NoDuplicates(r)
      ensures forall k :: k in r <==> k in components
      ensures |r| == |Infos()| && forall i :: 0 <= i < |r| ==> r[i] == Infos()[i].name
    {
      names
    }

    /** `get_component_info(name)`: the record of a known name, `None` for any other. */
    function GetComponentInfo(name: string): (r: Option<ComponentInfo>)
      reads this
      requires Valid()
      ensures r.Some? <==> name in GetComponentList()
      ensures r.Some? ==> r.value.name == name && r.value in Infos()
    {
      if name in components then
        var i :| 0 <= i < |names| && names[i] == name;
        assert Infos()[i] == components[name];
        Some(components[name])
      else None
    }

    /**
     * `get_all_components_summary()`: the header, then for each record in
     * order its heading, import line, items line and props line.
     */
    method GetAllComponentsSummary() returns (summary: string)
      requires Valid()
      ensures summary == Summary(Infos())
    {
      summary := SummaryHeader;
      var infos := Infos();
      var i := 0;
      while i < |names|
        invariant 0 <= i <= |names|
        invariant summary == Summary(infos[..i])
      {
        var info := components[names[i]];
        assert infos[..i + 1][..i] == infos[..i];
        ghost var before := summary;
        summary := summary + Heading(info.name);
        summary := summary + ImportLine(info);
        summary := summary + ItemsLine(info);
        summary := summary + PropsLine(info);
        AppendFour(before, Heading(info.name), ImportLine(info), ItemsLine(info), PropsLine(info));
        i := i + 1;
      }
      assert infos[..i] == infos;
    }
  }

  /** `ReactAppGenerator`: the string work around the model call. */
  class AppGenerator {
    const parser: ComponentParser

    constructor (parser: ComponentParser)
      ensures this.parser == parser
    {
      this.parser := parser;
    }

    /** `generate_user_prompt(user_request)`, listing the parser's names in order. */
    function GenerateUserPrompt(request: string): (r: string)
      reads parser
      requires parser.Valid()
      ensures |PromptOpening| + |PromptTail(parser.GetComponentList())| <= |r|
      ensures PromptRequest(r, parser.GetComponentList()) == request
      ensures forall i :: 0 <= i < |parser.names| ==> Contains(r, parser.names[i])
    {
      var names := parser.GetComponentList();
      PromptRoundTrip(request, names);
      forall i | 0 <= i < |names| ensures Contains(UserPrompt(request, names), names[i]) {
        PromptListsComponents(request, names, i);
      }
      UserPrompt(request, names)
    }

    /**
     * `_extract_used_components(code)`: for each record in order, then each
     * of its items in order, "component.item" when the item occurs in the code.
     */
    method ExtractUsedComponents(code: string) returns (used: seq<string>)
      requires parser.Valid()
      ensures used == UsedIn(parser.Infos(), code)
    {
      var infos := parser.Infos();
      used := [];
      var i := 0;
      while i < |parser.names|
        invariant 0 <= i <= |parser.names|
        invariant used == UsedIn(infos[..i], code)
      {
        var info := parser.components[parser.names[i]];
        assert infos[..i + 1][..i] == infos[..i];
        var j := 0;
        while j < |info.items|
          invariant 0 <= j <= |info.items|
          invariant used == UsedIn(infos[..i], code) + UsedItems(info.name, info.items[..j], code)
        {
          assert info.items[..j + 1][..j] == info.items[..j];
          if Contains(code, info.items[j]) {
            used := used + [UseLabel(info.name, info.items[j])];
          }
          j := j + 1;
        }
        assert info.items[..j] == info.items;
        i := i + 1;
      }
      assert infos[..i] == infos;
    }
  }
}
