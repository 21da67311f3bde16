/**
 * The production build's `manualChunks` classifier: every module id from
 * `node_modules` is put in one of eleven vendor chunks by the first
 * library name it contains; application modules get no manual chunk.
 */
module Chunks {
  import opened Common
  import Text

  /** The classifier as the build configuration writes it: a first-match chain of `includes` tests. */
  function ManualChunks(id: string): Option<string>
  {
    if !Text.Contains(id, "node_modules") then None
    else if Text.Contains(id, "jspdf") then Some("vendor-jspdf")
    else if Text.Contains(id, "html2canvas") then Some("vendor-html2canvas")
    else if Text.Contains(id, "recharts") then Some("vendor-recharts")
    else if Text.Contains(id, "framer-motion") then Some("vendor-framer-motion")
    else if Text.Contains(id, "react-router") then Some("vendor-react-router")
    else if Text.Contains(id, "react-hook-form") then Some("vendor-react-hook-form")
    else if Text.Contains(id, "zod") then Some("vendor-zod")
    else if Text.Contains(id, "@heroicons") then Some("vendor-heroicons")
    else if Text.Contains(id, "axios") then Some("vendor-axios")
    else if Text.Contains(id, "react") || Text.Contains(id, "react-dom") then Some("vendor-react")
    else Some("vendor-other")
  }

  /** One rule of the reference table: a module id containing `pattern` goes to `chunk`. */
  datatype Rule = Rule(pattern: string, chunk: string)

  /** The rules in the order they are tried. */
  const Rules: seq<Rule> := [
    Rule("jspdf", "vendor-jspdf"),
    Rule("html2canvas", "vendor-html2canvas"),
    Rule("recharts", "vendor-recharts"),
    Rule("framer-motion", "vendor-framer-motion"),
    Rule("react-router", "vendor-react-router"),
    Rule("react-hook-form", "vendor-react-hook-form"),
    Rule("zod", "vendor-zod"),
    Rule("@heroicons", "vendor-heroicons"),
    Rule("axios", "vendor-axios"),
    Rule("react", "vendor-react")
  ]

  const Fallback: string := "vendor-other"

  /** The chunk of the first rule from rule `i` on whose pattern the id contains, or the fallback. */
  function FirstMatchFrom(i: nat, id: string): string
    requires i <= |Rules|
    decreases |Rules| - i
  {
    if i == |Rules| then Fallback
    else if Text.Contains(id, Rules[i].pattern) then Rules[i].chunk
    else FirstMatchFrom(i + 1, id)
  }

  /** The reference reading of the classifier: outside `node_modules` nothing, inside it the first matching rule. */
  function Classify(id: string): Option<string>
  {
    if Text.Contains(id, "node_modules") then Some(FirstMatchFrom(0, id)) else None
  }

  /** `react-dom` contains `react`, so the second half of the last test never decides anything. */
  lemma ReactDomTestIsRedundant(id: string)
    ensures Text.Contains(id, "react") || Text.Contains(id, "react-dom") <==> Text.Contains(id, "react")
  {
    if Text.Contains(id, "react-dom") {
      assert Text.StartsWith("react-dom", "react");
      Text.ContainsTransitive(id, "react-dom", "react");
    }
  }

  /** The `if` chain is the rule table tried in order. */
  lemma ManualChunksIsFirstMatch(id: string)
    ensures ManualChunks(id) == Classify(id)
  {
    ReactDomTestIsRedundant(id);
    LaterRules(id);
    assert FirstMatchFrom(0, id) == if Text.Contains(id, "jspdf") then "vendor-jspdf" else FirstMatchFrom(1, id);
    assert FirstMatchFrom(1, id) == if Text.Contains(id, "html2canvas") then "vendor-html2canvas" else FirstMatchFrom(2, id);
    assert FirstMatchFrom(2, id) == if Text.Contains(id, "recharts") then "vendor-recharts" else FirstMatchFrom(3, id);
    assert FirstMatchFrom(3, id) == if Text.Contains(id, "framer-motion") then "vendor-framer-motion" else FirstMatchFrom(4, id);
    assert FirstMatchFrom(4, id) == if Text.Contains(id, "react-router") then "vendor-react-router" else FirstMatchFrom(5, id);
  }

  /** The last five rules and the fallback. */
  lemma LaterRules(id: string)
    ensures FirstMatchFrom(5, id) ==
      if Text.Contains(id, "react-hook-form") then "vendor-react-hook-form"
      else if Text.Contains(id, "zod") then "vendor-zod"
      else if Text.Contains(id, "@heroicons") then "vendor-heroicons"
      else if Text.Contains(id, "axios") then "vendor-axios"
      else if Text.Contains(id, "react") then "vendor-react"
      else Fallback
  {
    assert FirstMatchFrom(5, id) == if Text.Contains(id, "react-hook-form") then "vendor-react-hook-form" else FirstMatchFrom(6, id);
    assert FirstMatchFrom(6, id) == if Text.Contains(id, "zod") then "vendor-zod" else FirstMatchFrom(7, id);
    assert FirstMatchFrom(7, id) == if Text.Contains(id, "@heroicons") then "vendor-heroicons" else FirstMatchFrom(8, id);
    assert FirstMatchFrom(8, id) == if Text.Contains(id, "axios") then "vendor-axios" else FirstMatchFrom(9, id);
    assert FirstMatchFrom(9, id) == if Text.Contains(id, "react") then "vendor-react" else FirstMatchFrom(10, id);
  }

  /** The eleven vendor chunks. */
  const ChunkNames: set<string> := (set i | 0 <= i < |Rules| :: Rules[i].chunk) + {Fallback}

  /** An id outside `node_modules` gets no chunk; every other id gets exactly one of the eleven. */
  lemma EveryVendorIdHasAChunk(id: string)
    ensures !Text.Contains(id, "node_modules") <==> ManualChunks(id) == None
    ensures ManualChunks(id).Some? ==> ManualChunks(id).value in ChunkNames
  {
    ManualChunksIsFirstMatch(id);
    if Text.Contains(id, "node_modules") {
      FirstMatchIsAChunk(0, id);
    }
  }

  lemma {:induction false} FirstMatchIsAChunk(i: nat, id: string)
    requires i <= |Rules|
    ensures FirstMatchFrom(i, id) in ChunkNames
    decreases |Rules| - i
  {
    if i < |Rules| && !Text.Contains(id, Rules[i].pattern) {
      FirstMatchIsAChunk(i + 1, id);
    }
  }

  /** The rules name ten distinct chunks, none of them the fallback. */
  lemma RuleChunksDistinct()
    ensures forall j, k :: 0 <= j < k < |Rules| ==> Rules[j].chunk != Rules[k].chunk
    ensures forall j :: 0 <= j < |Rules| ==> Rules[j].chunk != Fallback
  {
  }

  /** From rule `i` on, the result is the fallback or the chunk of one of the remaining rules. */
  lemma {:induction false} FirstMatchIsALaterRule(i: nat, id: string)
    requires i <= |Rules|
    ensures FirstMatchFrom(i, id) == Fallback || exists j :: i <= j < |Rules| && FirstMatchFrom(i, id) == Rules[j].chunk
    decreases |Rules| - i
  {
    if i < |Rules| && !Text.Contains(id, Rules[i].pattern) {
      FirstMatchIsALaterRule(i + 1, id);
    }
  }

  /**
   * The first-match property: from rule `start` on, an id is put in rule
   * `i`'s chunk exactly when it contains rule `i`'s pattern and none of
   * the patterns between.
   */
  lemma {:induction false} FirstMatchPicksFirst(start: nat, id: string, i: nat)
    requires start <= i < |Rules|
    ensures FirstMatchFrom(start, id) == Rules[i].chunk
        <==> Text.Contains(id, Rules[i].pattern) && forall j :: start <= j < i ==> !Text.Contains(id, Rules[j].pattern)
    decreases i - start
  {
    if start == i {
      if !Text.Contains(id, Rules[i].pattern) {
        FirstMatchIsALaterRule(i + 1, id);
        RuleChunksDistinct();
      }
    } else if Text.Contains(id, Rules[start].pattern) {
      RuleChunksDistinct();
    } else {
      FirstMatchPicksFirst(start + 1, id, i);
    }
  }

  /**
   * `react-router` and `react-hook-form` modules get their own chunks
   * although they contain `react`; only the remaining `react` modules
   * go to `vendor-react`.
   */
  lemma ReactLibrariesSplit(id: string)
    requires Text.Contains(id, "node_modules")
    ensures Text.Contains(id, "react-router") && ManualChunks(id) == Some("vendor-react") ==> false
    ensures Text.Contains(id, "react-hook-form") && ManualChunks(id) == Some("vendor-react") ==> false
    ensures ManualChunks(id) == Some("vendor-react") ==>
      Text.Contains(id, "react") && !Text.Contains(id, "react-router") && !Text.Contains(id, "react-hook-form")
  {
    ReactDomTestIsRedundant(id);
  }

  /** Application sources are never split by hand. */
  lemma AppSourcesGetNoChunk()
    ensures ManualChunks("src/App.tsx") == None
  {
    assert !Text.Contains("src/App.tsx", "node_modules") by {
      NoLongerNeedle("src/App.tsx", "node_modules");
    }
  }

  /** A text never contains a longer one. */
  lemma {:induction false} NoLongerNeedle(s: string, t: string)
    requires |t| > |s|
    ensures !Text.Contains(s, t)
  {
    if s != [] {
      NoLongerNeedle(s[1..], t);
    }
  }
}
