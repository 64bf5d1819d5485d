/**
 * WebSearchCommand (src/commands/WebSearchCommand.js): checks the query and
 * the Custom Search credentials, asks for ten results, and saves them as a
 * numbered text listing under references/.
 */
module WebSearchCommand {
  import opened Base
  import opened Paths
  import opened Effects
  import opened FileSystems
  import opened Slug

  const MissingQuery := "web-search requires a query argument"
  const MissingCredentials := "web-search requires GOOGLE_SEARCH_API_KEY and GOOGLE_SEARCH_ENGINE_ID in .env\n"
    + "Set up a Custom Search API at: https://developers.google.com/custom-search"
  const Forbidden := "Custom Search API returned 403. Verify GOOGLE_SEARCH_API_KEY and GOOGLE_SEARCH_ENGINE_ID are correct.\n"
    + "See: https://developers.google.com/custom-search/docs/paid_element"
  const ResultCount := 10

  /** One element of `response.data.items`; a missing field prints as "undefined". */
  datatype SearchItem = SearchItem(title: Option<string>, link: Option<string>, snippet: Option<string>)

  /** The response body: `items` is None when it is missing or null. */
  datatype SearchBody = SearchBody(items: Option<seq<SearchItem>>)

  /** A field as a template literal prints it. */
  function Shown(f: Option<string>): string {
    f.GetOr("undefined")
  }

  /** The four lines of the result at position `idx` (the last one empty). */
  function BlockLines(idx: nat, item: SearchItem): (lines: seq<string>)
    ensures |lines| == 4 && lines[3] == ""
  {
    [NatToString(idx + 1) + ". " + Shown(item.title), "   URL: " + Shown(item.link), "   " + Shown(item.snippet), ""]
  }

  /** `items.map(...)` over the first `k` items: each result's block joined with '\n'. */
  function Blocks(items: seq<SearchItem>, k: nat): (r: seq<string>)
    requires k <= |items|
    ensures |r| == k
    ensures forall i :: 0 <= i < k ==> r[i] == Lines(BlockLines(i, items[i]))
    decreases k
  {
    if k == 0 then [] else Blocks(items, k - 1) + [Lines(BlockLines(k - 1, items[k - 1]))]
  }

  /** The lines before the results. */
  function Header(query: string, iso: string): seq<string> {
    ["Web Search Results for: \"" + query + "\"", "Retrieved: " + iso, "---"]
  }

  /** The saved listing. */
  function Listing(query: string, iso: string, items: seq<SearchItem>): string {
    Lines(Header(query, iso) + Blocks(items, |items|))
  }

  /** `path.join(process.cwd(), 'references')`. */
  function ReferencesDir(cwd: Segments): Segments {
    cwd + ["references"]
  }

  /** `${timestamp}-web-search-${sanitized}.txt`. */
  function ListingName(ts: nat, slug: string): (name: string)
    ensures StartsWith(name, NatToString(ts) + "-web-search-")
    ensures EndsWith(name, ".txt")
  {
    var name := NatToString(ts) + "-web-search-" + slug + ".txt";
    assert name[..|NatToString(ts) + "-web-search-"|] == NatToString(ts) + "-web-search-";
    assert name[|name| - 4..] == ".txt";
    name
  }

  /** The catch block: a 403 names the credentials; anything else is rethrown. */
  function FailureMessage(f: Failure): (m: string)
    ensures HasStatus(f, 403) ==> m == Forbidden
    ensures !HasStatus(f, 403) ==> m == f.message
  {
    if HasStatus(f, 403) then Forbidden else f.message
  }

  /** `execute(options)` with the credentials from `env`. */
  function WebSearch(o: Options, env: Env, cwd: Segments, clock: Clock, reply: Reply<SearchBody>): (r: Run<()>)
    ensures TextArg(o, "query").None? ==> r == Throw(MissingQuery)
    ensures TextArg(o, "query").Some? && (env.searchKey == "" || env.searchEngineId == "") ==>
      r == Throw(MissingCredentials)
    ensures TextArg(o, "query").Some? && env.searchKey != "" && env.searchEngineId != "" ==>
      |r.effects| >= 1
      && r.effects[0] == Call(CustomSearch(TextArg(o, "query").value, env.searchKey, env.searchEngineId, ResultCount))
    ensures r.result.Err? ==> NoWrites(r.effects)
    ensures r.result.Ok? <==> TextArg(o, "query").Some? && env.searchKey != "" && env.searchEngineId != "" && reply.Answered?
    ensures TextArg(o, "query").Some? && env.searchKey != "" && env.searchEngineId != "" && reply.Failed? ==>
      r.result == Err(FailureMessage(reply.failure))
    ensures r.result.Ok? && reply.body.items.None? ==> |r.effects| == 1
    ensures r.result.Ok? && reply.body.items.Some? ==>
      var query := TextArg(o, "query").value;
      r.effects == [Call(CustomSearch(query, env.searchKey, env.searchEngineId, ResultCount)), MkDirP(ReferencesDir(cwd)),
        Write(ReferencesDir(cwd), ListingName(clock.now, Sanitize(query)), Text(Listing(query, clock.iso, reply.body.items.value)))]
  {
    match TextArg(o, "query")
    case None => Throw(MissingQuery)
    case Some(query) =>
      if env.searchKey == "" || env.searchEngineId == "" then Throw(MissingCredentials)
      else
        var call := Call(CustomSearch(query, env.searchKey, env.searchEngineId, ResultCount));
        match reply
        case Failed(f) => Run([call], Err(FailureMessage(f)))
        case Answered(body) =>
          match body.items
          case None => Run([call], Ok(()))
          case Some(items) =>
            var dir := ReferencesDir(cwd);
            Run([call, MkDirP(dir), Write(dir, ListingName(clock.now, Sanitize(query)), Text(Listing(query, clock.iso, items)))],
                Ok(()))
  }

  // ---------------------------------------------------------------------
  // Reading the listing back

  /** The lines of the first `k` results' blocks, one after the other. */
  function ItemLines(items: seq<SearchItem>, k: nat): (r: seq<string>)
    requires k <= |items|
    ensures |r| == 4 * k
    decreases k
  {
    if k == 0 then [] else ItemLines(items, k - 1) + BlockLines(k - 1, items[k - 1])
  }

  /** Line `4 * i + j` of the results is line `j` of result `i`'s block. */
  lemma {:induction false} ItemLinesAt(items: seq<SearchItem>, k: nat, i: nat, j: nat)
    requires i < k <= |items| && j < 4
    ensures ItemLines(items, k)[4 * i + j] == BlockLines(i, items[i])[j]
    decreases k
  {
    if i < k - 1 {
      ItemLinesAt(items, k - 1, i, j);
    }
  }

  /** The listing is the header and every block's lines, all joined with '\n'. */
  lemma {:induction false} ListingFlat(header: seq<string>, items: seq<SearchItem>, k: nat)
    requires header != [] && k <= |items|
    ensures Lines(header + Blocks(items, k)) == Lines(header + ItemLines(items, k))
    decreases k
  {
    if k > 0 {
      var b := BlockLines(k - 1, items[k - 1]);
      ListingFlat(header, items, k - 1);
      assert header + Blocks(items, k) == (header + Blocks(items, k - 1)) + [Lines(b)];
      assert header + ItemLines(items, k) == (header + ItemLines(items, k - 1)) + b;
      JoinAppend(header + Blocks(items, k - 1), [Lines(b)], "\n");
      JoinAppend(header + ItemLines(items, k - 1), b, "\n");
    }
  }

  /** No field of any of the first `k` results holds a line break. */
  predicate OneLineFields(items: seq<SearchItem>) {
    forall i :: 0 <= i < |items| ==> Free([Shown(items[i].title), Shown(items[i].link), Shown(items[i].snippet)], '\n')
  }

  lemma {:induction false} ItemLinesFree(items: seq<SearchItem>, k: nat)
    requires k <= |items| && OneLineFields(items)
    ensures Free(ItemLines(items, k), '\n')
    decreases k
  {
    if k > 0 {
      ItemLinesFree(items, k - 1);
      var it := items[k - 1];
      var b := BlockLines(k - 1, it);
      var fields := [Shown(it.title), Shown(it.link), Shown(it.snippet)];
      assert Free(fields, '\n');
      assert '\n' !in fields[0] && '\n' !in fields[1] && '\n' !in fields[2];
      NoBreakInNumber(k - 1 + 1);
      assert '\n' !in "   URL: " && '\n' !in "   ";
      assert '\n' !in b[0] by { NoBreakInConcat(NatToString(k) + ". ", Shown(it.title)); }
      assert '\n' !in b[1] by { NoBreakInConcat("   URL: ", Shown(it.link)); }
      assert '\n' !in b[2] by { NoBreakInConcat("   ", Shown(it.snippet)); }
      assert Free(b, '\n');
      var r := ItemLines(items, k);
      assert r == ItemLines(items, k - 1) + b;
    }
  }

  lemma NoBreakInNumber(n: nat)
    ensures '\n' !in NatToString(n) + ". "
  {
    var s := NatToString(n);
    assert forall i :: 0 <= i < |s| ==> IsDigit(s[i]);
  }

  lemma NoBreakInConcat(a: string, b: string)
    requires '\n' !in a && '\n' !in b
    ensures '\n' !in a + b
  {
    assert forall i :: 0 <= i < |a + b| ==> (a + b)[i] == (if i < |a| then a[i] else b[i - |a|]);
  }

  lemma HeaderFree(query: string, iso: string)
    requires '\n' !in query && '\n' !in iso
    ensures Free(Header(query, iso), '\n')
  {
    NoBreakInConcat("Web Search Results for: \"", query);
    NoBreakInConcat("Web Search Results for: \"" + query, "\"");
    NoBreakInConcat("Retrieved: ", iso);
  }

  lemma FreeConcat(a: seq<string>, b: seq<string>, c: char)
    requires Free(a, c) && Free(b, c)
    ensures Free(a + b, c)
  {
    forall i | 0 <= i < |a + b| ensures c !in (a + b)[i] {
      if i >= |a| { assert (a + b)[i] == b[i - |a|]; }
    }
  }

  /**
   * When the query, the time and every field are single lines, the saved
   * listing splits back into its header and four lines per result, in
   * response order: result `i` is numbered `i + 1` and its title, link and
   * snippet are at lines `3 + 4 * i` to `5 + 4 * i`.
   */
  lemma ListingLines(query: string, iso: string, items: seq<SearchItem>)
    requires '\n' !in query && '\n' !in iso && OneLineFields(items)
    ensures var lines := Split(Listing(query, iso, items), '\n');
      && |lines| == 3 + 4 * |items|
      && lines[..3] == Header(query, iso)
      && forall i :: 0 <= i < |items| ==>
           && lines[3 + 4 * i] == NatToString(i + 1) + ". " + Shown(items[i].title)
           && lines[4 + 4 * i] == "   URL: " + Shown(items[i].link)
           && lines[5 + 4 * i] == "   " + Shown(items[i].snippet)
           && lines[6 + 4 * i] == ""
  {
    var h := Header(query, iso);
    ListingSplits(query, iso, items);
    var lines := Split(Listing(query, iso, items), '\n');
    forall i | 0 <= i < |items|
      ensures && lines[3 + 4 * i] == NatToString(i + 1) + ". " + Shown(items[i].title)
              && lines[4 + 4 * i] == "   URL: " + Shown(items[i].link)
              && lines[5 + 4 * i] == "   " + Shown(items[i].snippet)
              && lines[6 + 4 * i] == ""
    {
      BlockAt(h, items, i);
    }
  }

  /** The four lines of result `i`, after a three-line header. */
  lemma BlockAt(h: seq<string>, items: seq<SearchItem>, i: nat)
    requires |h| == 3 && i < |items|
    ensures var lines := h + ItemLines(items, |items|);
      && lines[3 + 4 * i] == NatToString(i + 1) + ". " + Shown(items[i].title)
      && lines[4 + 4 * i] == "   URL: " + Shown(items[i].link)
      && lines[5 + 4 * i] == "   " + Shown(items[i].snippet)
      && lines[6 + 4 * i] == ""
  {
    LineAt(h, items, i, 0);
    LineAt(h, items, i, 1);
    LineAt(h, items, i, 2);
    LineAt(h, items, i, 3);
  }

  /** The listing splits back into the header's lines and the items' lines. */
  lemma ListingSplits(query: string, iso: string, items: seq<SearchItem>)
    requires '\n' !in query && '\n' !in iso && OneLineFields(items)
    ensures Split(Listing(query, iso, items), '\n') == Header(query, iso) + ItemLines(items, |items|)
  {
    var h := Header(query, iso);
    var body := ItemLines(items, |items|);
    ListingFlat(h, items, |items|);
    ItemLinesFree(items, |items|);
    HeaderFree(query, iso);
    FreeConcat(h, body, '\n');
    SplitJoin(h + body, '\n');
  }

  lemma LineAt(h: seq<string>, items: seq<SearchItem>, i: nat, j: nat)
    requires |h| == 3 && i < |items| && j < 4
    ensures (h + ItemLines(items, |items|))[3 + 4 * i + j] == BlockLines(i, items[i])[j]
  {
    var body := ItemLines(items, |items|);
    var n := 4 * i + j;
    ItemLinesAt(items, |items|, i, j);
    assert (h + body)[3 + n] == body[n];
  }

  /**
   * A run that got results leaves exactly one new or replaced file, the
   * listing under references/; a run without `items` leaves the files as they
   * were.
   */
  lemma ListingSaved(o: Options, env: Env, cwd: Segments, clock: Clock, reply: Reply<SearchBody>,
                     files: map<Segments, Content>, dirs: set<Segments>)
    requires WebSearch(o, env, cwd, clock, reply).result.Ok?
    ensures var r := WebSearch(o, env, cwd, clock, reply);
      Prepared(dirs, r.effects)
    ensures var r := WebSearch(o, env, cwd, clock, reply);
      reply.body.items.None? ==> FilesAfter(files, r.effects) == files
    ensures var query := TextArg(o, "query").value;
      var r := WebSearch(o, env, cwd, clock, reply);
      reply.body.items.Some? ==>
        FilesAfter(files, r.effects)
          == files[ReferencesDir(cwd) + [ListingName(clock.now, Sanitize(query))]
                   := Text(Listing(query, clock.iso, reply.body.items.value))]
  {
    var query := TextArg(o, "query").value;
    var r := WebSearch(o, env, cwd, clock, reply);
    var calls := [Call(CustomSearch(query, env.searchKey, env.searchEngineId, ResultCount))];
    if reply.body.items.None? {
      assert r.effects == calls;
      CallsOnly(files, dirs, calls);
    } else {
      var name := ListingName(clock.now, Sanitize(query));
      var c := Text(Listing(query, clock.iso, reply.body.items.value));
      assert r.effects == calls + [MkDirP(ReferencesDir(cwd)), Write(ReferencesDir(cwd), name, c)];
      CallsThenSave(files, dirs, calls, ReferencesDir(cwd), name, c);
    }
  }
}
