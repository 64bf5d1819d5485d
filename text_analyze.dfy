/**
 * TextAnalyzeCommand (src/commands/TextAnalyzeCommand.js): checks the path,
 * reads the file, computes its statistics and saves a report under
 * references/, named after the file with the hyphen-keeping slug.
 */
module TextAnalyzeCommand {
  import opened Base
  import opened Paths
  import opened Effects
  import opened FileSystems
  import opened Slug
  import opened TextStats

  const MissingPath := "text-analyze requires a file path argument"

  /** `path.join(process.cwd(), 'references')`. */
  function ReferencesDir(cwd: Segments): Segments {
    cwd + ["references"]
  }

  /** `${timestamp}-text-analysis-${sanitized}.txt`. */
  function ReportName(ts: nat, sanitized: string): (name: string)
    ensures StartsWith(name, NatToString(ts) + "-text-analysis-")
    ensures EndsWith(name, ".txt")
  {
    var name := NatToString(ts) + "-text-analysis-" + sanitized + ".txt";
    assert name[..|NatToString(ts) + "-text-analysis-"|] == NatToString(ts) + "-text-analysis-";
    assert name[|name| - 4..] == ".txt";
    name
  }

  /** The slug of the file's name without its extension; leading and trailing '-' are kept. */
  function FileSlug(resolved: Segments): string {
    SanitizeKeepingHyphens(Stem(Basename(resolved)))
  }

  /** `x.toFixed(2)` for a non-negative value, computed on the exact value. */
  function ToFixed2(x: real): (s: string)
    requires x >= 0.0
  {
    var n := Round(x * 100.0);
    NatToString(n / 100) + "." + (if n % 100 < 10 then "0" else "") + NatToString(n % 100)
  }

  /** The numbered top-word lines, `  ${i + 1}. ${w}`. */
  function Ranked(top: seq<string>, k: nat): (r: seq<string>)
    requires k <= |top|
    ensures |r| == k
    ensures forall i :: 0 <= i < k ==> r[i] == "  " + NatToString(i + 1) + ". " + top[i]
  {
    if k == 0 then [] else Ranked(top, k - 1) + ["  " + NatToString(k) + ". " + top[k - 1]]
  }

  /** The report's lines before the blank ones are filtered out. */
  function ReportLines(iso: string, source: string, a: Analysis): seq<string>
    requires a.avgWordLength >= 0.0
  {
    ["Text Analysis Report", "Generated: " + iso, "Source: " + source, "---", "", "STATISTICS:"]
    + StatLines(a)
    + ["", "MOST COMMON WORDS:"]
    + Ranked(a.topWords, |a.topWords|)
    + ["", "READABILITY:", "  Flesch Reading Ease Score (estimated): " + IntToString(a.readabilityScore),
       if a.readabilityLevel != "" then "  Level: " + a.readabilityLevel else "", ""]
  }

  function StatLines(a: Analysis): (r: seq<string>)
    requires a.avgWordLength >= 0.0
    ensures |r| == 7 && forall i :: 0 <= i < 7 ==> r[i] != ""
  {
    ["  Size: " + NatToString(a.bytes) + " bytes", "  Characters: " + NatToString(a.chars),
     "  Words: " + NatToString(a.words), "  Lines: " + NatToString(a.lines),
     "  Paragraphs: " + NatToString(a.paragraphs),
     "  Average word length: " + ToFixed2(a.avgWordLength) + " characters",
     "  Reading time: ~" + NatToString(a.readingTime) + " minutes"]
  }

  /** `.filter(line => line !== '').join('\n')`. */
  function Report(iso: string, source: string, a: Analysis): string
    requires a.avgWordLength >= 0.0
  {
    Lines(DropEmpty(ReportLines(iso, source, a)))
  }

  /** `execute(options)` against the files on disk (`files` maps each existing file to its text). */
  function TextAnalyze(o: Options, cwd: Segments, clock: Clock, files: map<Segments, string>): (r: Run<Analysis>)
    ensures TextArg(o, "file").None? ==> r == Throw(MissingPath)
    ensures TextArg(o, "file").Some? && Resolve(cwd, TextArg(o, "file").value) !in files ==>
      r == Throw("File not found: " + Render(Resolve(cwd, TextArg(o, "file").value)))
    ensures NoCalls(r.effects)
    ensures r.result.Ok? <==> TextArg(o, "file").Some? && Resolve(cwd, TextArg(o, "file").value) in files
    ensures r.result.Ok? ==>
      var resolved := Resolve(cwd, TextArg(o, "file").value);
      && r.result.value == Analyze(files[resolved])
      && r.effects == [MkDirP(ReferencesDir(cwd)),
                       Write(ReferencesDir(cwd), ReportName(clock.now, FileSlug(resolved)),
                             Text(Report(clock.iso, Basename(resolved), Analyze(files[resolved]))))]
  {
    match TextArg(o, "file")
    case None => Throw(MissingPath)
    case Some(p) =>
      var resolved := Resolve(cwd, p);
      if resolved !in files then Throw("File not found: " + Render(resolved))
      else Saved(cwd, clock, resolved, Analyze(files[resolved]))
  }

  /** The success path: the statistics `a` of the file, and their report saved under references/. */
  function Saved(cwd: Segments, clock: Clock, resolved: Segments, a: Analysis): (r: Run<Analysis>)
    requires a.avgWordLength >= 0.0
    ensures NoCalls(r.effects) && r.result == Ok(a)
    ensures r.effects == [MkDirP(ReferencesDir(cwd)),
                          Write(ReferencesDir(cwd), ReportName(clock.now, FileSlug(resolved)),
                                Text(Report(clock.iso, Basename(resolved), a)))]
  {
    var dir := ReferencesDir(cwd);
    var name := ReportName(clock.now, FileSlug(resolved));
    var report := Text(Report(clock.iso, Basename(resolved), a));
    assert NoCalls([MkDirP(dir), Write(dir, name, report)]);
    Run([MkDirP(dir), Write(dir, name, report)], Ok(a))
  }

  // ---------------------------------------------------------------------
  // Properties

  lemma {:induction false} DropEmptyAppend(a: seq<string>, b: seq<string>)
    ensures DropEmpty(a + b) == DropEmpty(a) + DropEmpty(b)
    decreases |a|
  {
    if a != [] {
      assert (a + b)[0] == a[0] && (a + b)[1..] == a[1..] + b;
      DropEmptyAppend(a[1..], b);
    } else {
      assert a + b == b;
    }
  }

  lemma {:induction false} DropEmptyKeeps(a: seq<string>)
    requires forall i :: 0 <= i < |a| ==> a[i] != ""
    ensures DropEmpty(a) == a
    decreases |a|
  {
    if a != [] {
      DropEmptyKeeps(a[1..]);
    }
  }

  predicate NoBlank(a: seq<string>) {
    forall i :: 0 <= i < |a| ==> a[i] != ""
  }

  /** A block of non-blank lines followed by a blank one: the filter keeps the block. */
  lemma DropBlock(p: seq<string>, rest: seq<string>)
    requires NoBlank(p)
    ensures DropEmpty(p + [""] + rest) == p + DropEmpty(rest)
  {
    DropEmptyAppend(p, [""] + rest);
    DropEmptyKeeps(p);
    assert p + [""] + rest == p + ([""] + rest);
  }

  /** Four blocks of non-blank lines, each followed by a blank one: the filter keeps the blocks. */
  lemma DropSeparators(p1: seq<string>, p2: seq<string>, p3: seq<string>, p4: seq<string>)
    requires NoBlank(p1) && NoBlank(p2) && NoBlank(p3) && NoBlank(p4)
    ensures DropEmpty(p1 + [""] + (p2 + [""] + (p3 + [""] + (p4 + [""] + [])))) == p1 + (p2 + (p3 + p4))
  {
    var r4 := p4 + [""] + [];
    var r3 := p3 + [""] + r4;
    var r2 := p2 + [""] + r3;
    DropBlock(p4, []);
    assert DropEmpty(r4) == p4 by {
      assert DropEmpty([]) == [];
      assert p4 + [] == p4;
    }
    DropBlock(p3, r4);
    DropBlock(p2, r3);
    DropBlock(p1, r2);
  }

  /**
   * The saved report holds no blank line: the header, the seven statistics,
   * the ranked words and the readability lines, with every separating '' of
   * the template filtered out.
   */
  lemma ReportHasNoBlankLines(iso: string, source: string, a: Analysis)
    requires a.avgWordLength >= 0.0 && a.readabilityLevel != ""
    ensures Report(iso, source, a)
         == Lines(["Text Analysis Report", "Generated: " + iso, "Source: " + source, "---", "STATISTICS:"]
                  + StatLines(a) + ["MOST COMMON WORDS:"] + Ranked(a.topWords, |a.topWords|)
                  + ["READABILITY:", "  Flesch Reading Ease Score (estimated): " + IntToString(a.readabilityScore),
                     "  Level: " + a.readabilityLevel])
  {
    var p1 := ["Text Analysis Report", "Generated: " + iso, "Source: " + source, "---"];
    var p2 := ["STATISTICS:"] + StatLines(a);
    var p3 := ["MOST COMMON WORDS:"] + Ranked(a.topWords, |a.topWords|);
    var p4 := ["READABILITY:", "  Flesch Reading Ease Score (estimated): " + IntToString(a.readabilityScore),
               "  Level: " + a.readabilityLevel];
    assert ReportLines(iso, source, a) == p1 + [""] + (p2 + [""] + (p3 + [""] + (p4 + [""] + [])));
    HeadedBlock("STATISTICS:", StatLines(a));
    RankedNotBlank(a.topWords);
    HeadedBlock("MOST COMMON WORDS:", Ranked(a.topWords, |a.topWords|));
    DropSeparators(p1, p2, p3, p4);
    HeadedBlocks(p1, "STATISTICS:", StatLines(a), "MOST COMMON WORDS:", Ranked(a.topWords, |a.topWords|), p4);
    assert p1 + ["STATISTICS:"]
        == ["Text Analysis Report", "Generated: " + iso, "Source: " + source, "---", "STATISTICS:"];
  }

  /** Regrouping the four blocks once their separators are gone. */
  lemma HeadedBlocks<T>(p1: seq<T>, t2: T, s2: seq<T>, t3: T, s3: seq<T>, p4: seq<T>)
    ensures p1 + (([t2] + s2) + (([t3] + s3) + p4)) == p1 + [t2] + s2 + [t3] + s3 + p4
  {
  }

  lemma HeadedBlock(title: string, lines: seq<string>)
    requires title != "" && NoBlank(lines)
    ensures NoBlank([title] + lines)
  {
    var b := [title] + lines;
    forall i | 1 <= i < |b| ensures b[i] != "" { assert b[i] == lines[i - 1]; }
  }

  lemma RankedNotBlank(top: seq<string>)
    ensures NoBlank(Ranked(top, |top|))
  {
    var r := Ranked(top, |top|);
    forall i | 0 <= i < |r| ensures r[i] != "" { assert r[i][0] == ' '; }
  }

  /** A successful run leaves one new or replaced file, the report, and needs no directory beforehand. */
  lemma ReportSaved(o: Options, cwd: Segments, clock: Clock, files: map<Segments, string>,
                    disk: map<Segments, Content>, dirs: set<Segments>)
    requires TextAnalyze(o, cwd, clock, files).result.Ok?
    ensures var resolved := Resolve(cwd, TextArg(o, "file").value);
      var r := TextAnalyze(o, cwd, clock, files);
      && Prepared(dirs, r.effects)
      && FilesAfter(disk, r.effects)
         == disk[ReferencesDir(cwd) + [ReportName(clock.now, FileSlug(resolved))]
                 := Text(Report(clock.iso, Basename(resolved), Analyze(files[resolved])))]
  {
    var resolved := Resolve(cwd, TextArg(o, "file").value);
    MkDirThenWrite(disk, dirs, ReferencesDir(cwd), ReportName(clock.now, FileSlug(resolved)),
                   Text(Report(clock.iso, Basename(resolved), Analyze(files[resolved]))));
  }

  /** The stem of "<base>.txt" is `base` when `base` has no '.'. */
  lemma StemOfTxt(base: string)
    requires base != [] && '.' !in base
    ensures Stem(base + ".txt") == base
  {
    var name := base + ".txt";
    assert name[|base|] == '.';
    assert forall j :: |base| < j < |name| ==> name[j] == ".txt"[j - |base|];
    var d := LastDot(name);
    assert d.value == |base|;
    assert Extname(name) == name[|base|..] == ".txt";
  }

  /** A slug word behind one leading '_': this slug keeps a '-' for it, the trimming slug drops it. */
  lemma LeadingUnderscore(w: string)
    requires 1 <= |w| <= 49 && forall i :: 0 <= i < |w| ==> IsSlugChar(w[i])
    ensures SanitizeKeepingHyphens("_" + w) == "-" + w
    ensures Sanitize("_" + w) == w
  {
    var s := "_" + w;
    assert Lower(s) == s by {
      forall i | 0 <= i < |s| ensures Lower(s)[i] == s[i] {
        if i > 0 { assert s[i] == w[i - 1]; }
      }
    }
    assert s[1..] == w;
    assert DropRun(w) == w;
    assert SlugText(w);
    CollapseOfSlugText(w);
    assert Collapse(s) == "-" + w;
    assert TrimHyphens("-" + w) == w by {
      assert ("-" + w)[1..] == w;
      assert w[|w| - 1] != '-';
    }
  }

  /**
   * Unlike the other commands' slug, this one keeps a leading '-': a file
   * named "_notes.txt" gives "-notes" here, where the trimming slug gives
   * "notes"; so does any "_<word>.txt" with a word of letters and digits.
   */
  lemma LeadingHyphenKept(w: string)
    requires 1 <= |w| <= 49 && forall i :: 0 <= i < |w| ==> IsSlugChar(w[i])
    ensures SanitizeKeepingHyphens(Stem("_" + w + ".txt")) == "-" + w
    ensures Sanitize(Stem("_" + w + ".txt")) == w
  {
    assert '.' !in "_" + w by {
      assert forall i :: 0 <= i < |w| ==> w[i] != '.';
    }
    StemOfTxt("_" + w);
    LeadingUnderscore(w);
  }
}
