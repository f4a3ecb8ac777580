/** The landing page: a catalog of the site's tools that the visitor
    narrows down with a search box and a status filter, and the HTML
    escaping every page applies to text before writing it into markup. */
module Landing {
  import opened Strings
  import opened Seqs

  // ---------------------------------------------------------------------
  // escapeHtml
  // ---------------------------------------------------------------------

  /** `s.replaceAll(c, rep)` for a one-character pattern: every occurrence
      of `c`, left to right, replaced by `rep`. */
  function ReplaceAll(s: string, c: char, rep: string): (r: string)
    ensures forall x :: x in r ==> x in s || x in rep
    ensures c !in rep ==> c !in r
    decreases |s|
  {
    if s == [] then [] else (if s[0] == c then rep else [s[0]]) + ReplaceAll(s[1..], c, rep)
  }

  lemma {:induction false} ReplaceAllConcat(a: string, b: string, c: char, rep: string)
    ensures ReplaceAll(a + b, c, rep) == ReplaceAll(a, c, rep) + ReplaceAll(b, c, rep)
    decreases |a|
  {
    if a == [] {
      assert a + b == b;
    } else {
      assert (a + b)[0] == a[0];
      assert (a + b)[1..] == a[1..] + b;
      ReplaceAllConcat(a[1..], b, c, rep);
    }
  }

  lemma {:induction false} ReplaceAllAbsent(s: string, c: char, rep: string)
    requires c !in s
    ensures ReplaceAll(s, c, rep) == s
    decreases |s|
  {
    if s != [] {
      ReplaceAllAbsent(s[1..], c, rep);
    }
  }

  /** escapeHtml: "&" first, then "<", ">", '"' and "'", each by its
      entity. */
  function EscapeHtml(s: string): (r: string)
    ensures '<' !in r && '>' !in r && '"' !in r && '\'' !in r
  {
    var amp := ReplaceAll(s, '&', "&amp;");
    var lt := ReplaceAll(amp, '<', "&lt;");
    var gt := ReplaceAll(lt, '>', "&gt;");
    var quot := ReplaceAll(gt, '"', "&quot;");
    ReplaceAll(quot, '\'', "&#039;")
  }

  /** The entity each special character becomes; any other character
      stands for itself. */
  function EscapeChar(c: char): (r: string)
    ensures '<' !in r && '>' !in r && '"' !in r && '\'' !in r
  {
    match c
    case '&' => "&amp;"
    case '<' => "&lt;"
    case '>' => "&gt;"
    case '"' => "&quot;"
    case '\'' => "&#039;"
    case _ => [c]
  }

  /** Escaping character by character: the reference the chained
      replacements are measured against. */
  function EscapeEach(s: string): (r: string)
    ensures '<' !in r && '>' !in r && '"' !in r && '\'' !in r
    decreases |s|
  {
    if s == [] then [] else EscapeChar(s[0]) + EscapeEach(s[1..])
  }

  predicate Special(c: char) {
    c == '&' || c == '<' || c == '>' || c == '"' || c == '\''
  }

  lemma EscapeHtmlConcat(a: string, b: string)
    ensures EscapeHtml(a + b) == EscapeHtml(a) + EscapeHtml(b)
  {
    ReplaceAllConcat(a, b, '&', "&amp;");
    var a1 := ReplaceAll(a, '&', "&amp;");
    var b1 := ReplaceAll(b, '&', "&amp;");
    ReplaceAllConcat(a1, b1, '<', "&lt;");
    var a2 := ReplaceAll(a1, '<', "&lt;");
    var b2 := ReplaceAll(b1, '<', "&lt;");
    ReplaceAllConcat(a2, b2, '>', "&gt;");
    var a3 := ReplaceAll(a2, '>', "&gt;");
    var b3 := ReplaceAll(b2, '>', "&gt;");
    ReplaceAllConcat(a3, b3, '"', "&quot;");
    var a4 := ReplaceAll(a3, '"', "&quot;");
    var b4 := ReplaceAll(b3, '"', "&quot;");
    ReplaceAllConcat(a4, b4, '\'', "&#039;");
  }

  lemma ReplaceOne(c: char, x: char, rep: string)
    ensures ReplaceAll([c], x, rep) == if c == x then rep else [c]
  {
    assert [c][1..] == [];
  }

  /** The five replacements applied in turn, as `EscapeHtml` chains them. */
  lemma EscapeSteps(s: string, s1: string, s2: string, s3: string, s4: string, s5: string)
    requires s1 == ReplaceAll(s, '&', "&amp;") && s2 == ReplaceAll(s1, '<', "&lt;")
    requires s3 == ReplaceAll(s2, '>', "&gt;") && s4 == ReplaceAll(s3, '"', "&quot;")
    requires s5 == ReplaceAll(s4, '\'', "&#039;")
    ensures EscapeHtml(s) == s5
  {
  }

  lemma EscapeAmp(c: char, e: string)
    requires c == '&' && e == EscapeChar(c)
    ensures EscapeHtml([c]) == e
  {
    ReplaceOne(c, '&', "&amp;");
    ReplaceAllAbsent(e, '<', "&lt;");
    ReplaceAllAbsent(e, '>', "&gt;");
    ReplaceAllAbsent(e, '"', "&quot;");
    ReplaceAllAbsent(e, '\'', "&#039;");
    EscapeSteps([c], e, e, e, e, e);
  }

  lemma EscapeLt(c: char, e: string)
    requires c == '<' && e == EscapeChar(c)
    ensures EscapeHtml([c]) == e
  {
    ReplaceOne(c, '&', "&amp;");
    ReplaceOne(c, '<', "&lt;");
    ReplaceAllAbsent(e, '>', "&gt;");
    ReplaceAllAbsent(e, '"', "&quot;");
    ReplaceAllAbsent(e, '\'', "&#039;");
    EscapeSteps([c], [c], e, e, e, e);
  }

  lemma EscapeGt(c: char, e: string)
    requires c == '>' && e == EscapeChar(c)
    ensures EscapeHtml([c]) == e
  {
    ReplaceOne(c, '&', "&amp;");
    ReplaceOne(c, '<', "&lt;");
    ReplaceOne(c, '>', "&gt;");
    ReplaceAllAbsent(e, '"', "&quot;");
    ReplaceAllAbsent(e, '\'', "&#039;");
    EscapeSteps([c], [c], [c], e, e, e);
  }

  lemma EscapeQuot(c: char, e: string)
    requires c == '"' && e == EscapeChar(c)
    ensures EscapeHtml([c]) == e
  {
    ReplaceOne(c, '&', "&amp;");
    ReplaceOne(c, '<', "&lt;");
    ReplaceOne(c, '>', "&gt;");
    ReplaceOne(c, '"', "&quot;");
    ReplaceAllAbsent(e, '\'', "&#039;");
    EscapeSteps([c], [c], [c], [c], e, e);
  }

  lemma EscapeApos(c: char, e: string)
    requires c == '\'' && e == EscapeChar(c)
    ensures EscapeHtml([c]) == e
  {
    ReplaceOne(c, '&', "&amp;");
    ReplaceOne(c, '<', "&lt;");
    ReplaceOne(c, '>', "&gt;");
    ReplaceOne(c, '"', "&quot;");
    ReplaceOne(c, '\'', "&#039;");
    EscapeSteps([c], [c], [c], [c], [c], e);
  }

  lemma EscapeOther(c: char)
    requires !Special(c)
    ensures EscapeHtml([c]) == [c]
  {
    ReplaceOne(c, '&', "&amp;");
    ReplaceOne(c, '<', "&lt;");
    ReplaceOne(c, '>', "&gt;");
    ReplaceOne(c, '"', "&quot;");
    ReplaceOne(c, '\'', "&#039;");
    EscapeSteps([c], [c], [c], [c], [c], [c]);
  }

  /** One character goes through the five replacements as its entity: no
      later replacement touches what an earlier one wrote. */
  lemma EscapeHtmlOfChar(c: char)
    ensures EscapeHtml([c]) == EscapeChar(c)
  {
    var e := EscapeChar(c);
    if c == '&' {
      EscapeAmp(c, e);
    } else if c == '<' {
      EscapeLt(c, e);
    } else if c == '>' {
      EscapeGt(c, e);
    } else if c == '"' {
      EscapeQuot(c, e);
    } else if c == '\'' {
      EscapeApos(c, e);
    } else {
      EscapeOther(c);
    }
  }

  /** The chained replacements escape each character on its own. */
  lemma {:induction false} EscapeHtmlIsEscapeEach(s: string)
    ensures EscapeHtml(s) == EscapeEach(s)
    decreases |s|
  {
    if s != [] {
      assert s == [s[0]] + s[1..];
      EscapeHtmlConcat([s[0]], s[1..]);
      EscapeHtmlOfChar(s[0]);
      EscapeHtmlIsEscapeEach(s[1..]);
    }
  }

  /** Escaped text can close no tag and no attribute. */
  lemma EscapeHtmlSafe(s: string)
    ensures var r := EscapeHtml(s); '<' !in r && '>' !in r && '"' !in r && '\'' !in r
  {
    EscapeHtmlIsEscapeEach(s);
  }

  /** Text without any of the five special characters is left alone. */
  lemma {:induction false} EscapeHtmlPlain(s: string)
    requires forall i :: 0 <= i < |s| ==> !Special(s[i])
    ensures EscapeHtml(s) == s
  {
    EscapeHtmlIsEscapeEach(s);
    EscapeEachPlain(s);
  }

  lemma {:induction false} EscapeEachPlain(s: string)
    requires forall i :: 0 <= i < |s| ==> !Special(s[i])
    ensures EscapeEach(s) == s
    decreases |s|
  {
    if s != [] {
      EscapeEachPlain(s[1..]);
    }
  }

  /** What a browser reads back from escaped text: each entity the page
      writes stands for its character. */
  function Unescape(s: string): string
    decreases |s|
  {
    if s == [] then []
    else if "&amp;" <= s then "&" + Unescape(s[5..])
    else if "&lt;" <= s then "<" + Unescape(s[4..])
    else if "&gt;" <= s then ">" + Unescape(s[4..])
    else if "&quot;" <= s then "\"" + Unescape(s[6..])
    else if "&#039;" <= s then "'" + Unescape(s[6..])
    else [s[0]] + Unescape(s[1..])
  }

  lemma UnescapeEntity(e: string, c: char, rest: string)
    requires e == EscapeChar(c)
    ensures Unescape(e + rest) == [c] + Unescape(rest)
  {
    var s := e + rest;
    assert s[..|e|] == e && s[|e|..] == rest;
    if !Special(c) {
      assert s[0] == c && s[1..] == rest;
    } else if c == '&' {
      assert "&amp;" <= s;
    } else if c == '<' {
      assert s[1] == 'l';
      assert "&lt;" <= s;
    } else if c == '>' {
      assert s[1] == 'g';
      assert "&gt;" <= s;
    } else if c == '"' {
      assert s[1] == 'q';
      assert "&quot;" <= s;
    } else {
      assert s[1] == '#';
      assert "&#039;" <= s;
    }
  }

  /** Reading escaped text back gives the original text. */
  lemma {:induction false} EscapeHtmlRoundTrip(s: string)
    ensures Unescape(EscapeHtml(s)) == s
  {
    EscapeHtmlIsEscapeEach(s);
    UnescapeEscapeEach(s);
  }

  lemma {:induction false} UnescapeEscapeEach(s: string)
    ensures Unescape(EscapeEach(s)) == s
    decreases |s|
  {
    if s != [] {
      UnescapeEntity(EscapeChar(s[0]), s[0], EscapeEach(s[1..]));
      UnescapeEscapeEach(s[1..]);
      assert s == [s[0]] + s[1..];
    }
  }

  // ---------------------------------------------------------------------
  // The tool catalog
  // ---------------------------------------------------------------------

  datatype Tool = Tool(title: string, status: string, desc: string, tags: seq<string>, href: string, cta: string,
                       disabled: bool)

  const Tools: seq<Tool> := [
    Tool("Heroes Roster", "live",
         "Enter and save your heroes once. Other tools will reuse this roster for calculations and optimization.",
         ["heroes", "profile", "saved data"], "heroes/", "Open", false),
    Tool("Bear Event Optimizer", "live",
         "Optimize Bear rally and join rally troop splits with archer-first, capacity-aware planning.",
         ["bear", "rally", "optimizer"], "bear-event-optimizer/", "Open", false),
    Tool("Upgrade Cost Calculator", "planned",
         "Estimate upgrade requirements and compare paths by cost and efficiency. Designed to be transparent and auditable.",
         ["upgrades", "cost", "planning"], "#", "Coming soon", true),
    Tool("Event Timing Planner", "planned",
         "Plan resource spending around event windows. Model tradeoffs between short-term points and long-term growth.",
         ["events", "timing", "strategy"], "#", "Coming soon", true),
    Tool("Resource Conversion Helper", "planned",
         "Convert between resource types and quantify opportunity costs. Good for evaluating bundles and resource decisions.",
         ["resources", "efficiency"], "#", "Coming soon", true),
    Tool("Rally / Formation Optimizer", "planned",
         "Explore formation choices and expected outcomes under constraints. Start simple; add depth once validated.",
         ["combat", "rally", "formation"], "#", "Coming soon", true),
    Tool("Daily Checklist Builder", "wip",
         "A lightweight routine builder to reduce missed value. The goal is consistency without overwhelm.",
         ["daily", "routine", "QoL"], "#", "In progress", true),
    Tool("Data Notes / Methodology", "beta",
         "Explain assumptions, data sourcing, and validation approach. This will evolve alongside the tool suite.",
         ["methodology", "transparency"], "#", "Preview", true)
  ]

  // ---------------------------------------------------------------------
  // statusLabel
  // ---------------------------------------------------------------------

  function StatusLabel(status: string): (text: string)
    ensures status == "live" ==> text == "Live"
    ensures status == "beta" ==> text == "Beta"
    ensures status == "wip" ==> text == "In progress"
    ensures status == "planned" ==> text == "Planned"
    ensures status !in {"live", "beta", "wip", "planned"} ==> text == status
  {
    if status == "live" then "Live"
    else if status == "beta" then "Beta"
    else if status == "wip" then "In progress"
    else if status == "planned" then "Planned"
    else status
  }

  /** A label is no status the page knows, so labelling it again keeps it. */
  lemma StatusLabelIdempotent(status: string)
    ensures StatusLabel(StatusLabel(status)) == StatusLabel(status)
  {
    var shown := StatusLabel(status);
    if status in {"live", "beta", "wip", "planned"} {
      assert shown[0] in {'L', 'B', 'I', 'P'};
      assert shown !in {"live", "beta", "wip", "planned"};
    }
  }

  // ---------------------------------------------------------------------
  // The search box and the status filter (applyFilters)
  // ---------------------------------------------------------------------

  /** Title, description, tags and status, joined by spaces and
      lowercased. */
  function Haystack(t: Tool): string {
    Lower(Join([t.title, t.desc] + t.tags + [t.status], " "))
  }

  /** matchesSearch: an empty query matches every tool; otherwise the
      lowercased query must occur in the tool's text. */
  predicate MatchesSearch(t: Tool, q: string) {
    q == [] || Contains(Haystack(t), Lower(q))
  }

  /** matchesStatus: an empty status or "all" matches every tool;
      otherwise the status must be the tool's own. */
  predicate MatchesStatus(t: Tool, status: string) {
    status == [] || status == "all" || t.status == status
  }

  /** applyFilters: the tools that match the trimmed search and the chosen
      status (an empty choice counts as "all"), in catalog order. */
  function ApplyFilters(tools: seq<Tool>, search: string, statusValue: string): (shown: seq<Tool>)
    ensures |shown| <= |tools|
  {
    var q := Trim(search);
    var status := if statusValue == [] then "all" else statusValue;
    Filter(Filter(tools, (t: Tool) => MatchesSearch(t, q)), (t: Tool) => MatchesStatus(t, status))
  }

  /** A tool is shown exactly when it is in the list and matches both the
      search and the status. */
  lemma ApplyFiltersMembership(tools: seq<Tool>, search: string, statusValue: string, t: Tool)
    ensures t in ApplyFilters(tools, search, statusValue)
        <==> t in tools && MatchesSearch(t, Trim(search)) && MatchesStatus(t, statusValue)
  {
    var q := Trim(search);
    var status := if statusValue == [] then "all" else statusValue;
    var bySearch := Filter(tools, (x: Tool) => MatchesSearch(x, q));
    FilterMembership(tools, (x: Tool) => MatchesSearch(x, q), t);
    FilterMembership(bySearch, (x: Tool) => MatchesStatus(x, status), t);
  }

  /** The reset button's state, a blank search and "all", shows every
      tool in catalog order. */
  lemma ApplyFiltersReset(tools: seq<Tool>, search: string, statusValue: string)
    requires Trim(search) == [] && (statusValue == [] || statusValue == "all")
    ensures ApplyFilters(tools, search, statusValue) == tools
  {
    FilterAll(tools, (x: Tool) => MatchesSearch(x, Trim(search)));
    FilterAll(tools, (x: Tool) => MatchesStatus(x, "all"));
  }

  /** Filtering a catalog made of two parts filters each part, so shown
      tools keep their catalog order. */
  lemma ApplyFiltersConcat(a: seq<Tool>, b: seq<Tool>, search: string, statusValue: string)
    ensures ApplyFilters(a + b, search, statusValue) == ApplyFilters(a, search, statusValue) + ApplyFilters(b, search, statusValue)
  {
    var q := Trim(search);
    var status := if statusValue == [] then "all" else statusValue;
    var bySearch := (x: Tool) => MatchesSearch(x, q);
    var byStatus := (x: Tool) => MatchesStatus(x, status);
    FilterConcat(a, b, bySearch);
    FilterConcat(Filter(a, bySearch), Filter(b, bySearch), byStatus);
  }

  /** A query found in a tool's title, ignoring case, shows that tool. */
  lemma TitleMatchFound(t: Tool, q: string)
    requires Contains(Lower(t.title), Lower(q))
    ensures MatchesSearch(t, q)
  {
    var parts := [t.title, t.desc] + t.tags + [t.status];
    var rest := Join(parts[1..], " ");
    assert parts[0] == t.title;
    assert |parts| > 1;
    assert Join(parts, " ") == t.title + (" " + rest);
    LowerConcat(t.title, " " + rest);
    ContainsAppendRight(Lower(t.title), Lower(" " + rest), Lower(q));
  }
}
