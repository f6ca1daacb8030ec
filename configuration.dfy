/** The self-contained rules of dragent_configuration: the log priority named by
    a configuration string, the clean-up of a metric filter list, and the
    empty and absolute cases of path normalisation. */
module Configuration {
  import opened MetricLimits

  // ---------------------------------------------------------------------------
  // Log priorities

  // Poco's Message::Priority values; Poco is not part of this model.
  const PRIO_FATAL: int := 1
  const PRIO_CRITICAL: int := 2
  const PRIO_ERROR: int := 3
  const PRIO_WARNING: int := 4
  const PRIO_NOTICE: int := 5
  const PRIO_INFORMATION: int := 6
  const PRIO_DEBUG: int := 7
  const PRIO_TRACE: int := 8

  /** A priority, or the sinsp_exception thrown for a string that names none. */
  datatype PriorityResult = Level(prio: int) | InvalidPriority

  /** tolower in the C locale. */
  function ToLower(c: char): char
  {
    if 'A' <= c <= 'Z' then (c as int + 32) as char else c
  }

  /** strncasecmp(s.c_str(), word, |word|) == 0 for a lower-case word without NUL:
      s has at least |word| characters and they match the word ignoring case. A
      NUL in s before that point matches no character of the word. */
  predicate CasePrefix(s: string, word: string)
  {
    |word| <= |s| && forall i :: 0 <= i < |word| ==> ToLower(s[i]) == word[i]
  }

  /** string_to_priority: the first keyword that begins the string, ignoring
      case, gives the priority; with none, the empty string and "none..." give -1,
      and anything else is rejected. */
  function StringToPriority(s: string): (r: PriorityResult)
    ensures r.Level? ==> -1 <= r.prio <= PRIO_TRACE
    ensures r == InvalidPriority ==> s != "" && !CasePrefix(s, "none")
  {
    if CasePrefix(s, "emergency") then Level(0)
    else if CasePrefix(s, "alert") || CasePrefix(s, "fatal") then Level(PRIO_FATAL)
    else if CasePrefix(s, "critical") then Level(PRIO_CRITICAL)
    else if CasePrefix(s, "error") then Level(PRIO_ERROR)
    else if CasePrefix(s, "warn") then Level(PRIO_WARNING)
    else if CasePrefix(s, "notice") then Level(PRIO_NOTICE)
    else if CasePrefix(s, "info") then Level(PRIO_INFORMATION)
    else if CasePrefix(s, "debug") then Level(PRIO_DEBUG)
    else if CasePrefix(s, "trace") then Level(PRIO_TRACE)
    else if |s| == 0 || CasePrefix(s, "none") then Level(-1)
    else InvalidPriority
  }

  /** The keywords in the order they are tried, each with its priority. */
  const PRIORITY_WORDS: seq<(string, int)> := [
    ("emergency", 0), ("alert", PRIO_FATAL), ("fatal", PRIO_FATAL), ("critical", PRIO_CRITICAL),
    ("error", PRIO_ERROR), ("warn", PRIO_WARNING), ("notice", PRIO_NOTICE),
    ("info", PRIO_INFORMATION), ("debug", PRIO_DEBUG), ("trace", PRIO_TRACE)]

  /** The priority of the first keyword of the table that begins s. */
  function FirstMatch(words: seq<(string, int)>, s: string): Option<int>
  {
    if words == [] then None
    else if CasePrefix(s, words[0].0) then Some(words[0].1)
    else FirstMatch(words[1..], s)
  }

  datatype Option<T> = None | Some(value: T)

  /** The table lookup is "first match wins": a result names a keyword that begins
      s and no earlier keyword does; no result means no keyword begins s. */
  lemma {:induction false} FirstMatchIsFirst(words: seq<(string, int)>, s: string)
    ensures FirstMatch(words, s).Some? <==> exists k :: 0 <= k < |words| && CasePrefix(s, words[k].0)
    ensures FirstMatch(words, s).Some? ==>
              exists k :: 0 <= k < |words| && CasePrefix(s, words[k].0) && words[k].1 == FirstMatch(words, s).value
                          && forall j :: 0 <= j < k ==> !CasePrefix(s, words[j].0)
  {
    if words != [] && !CasePrefix(s, words[0].0) {
      FirstMatchIsFirst(words[1..], s);
      if FirstMatch(words, s).Some? {
        var k :| 0 <= k < |words| - 1 && CasePrefix(s, words[1..][k].0)
                 && words[1..][k].1 == FirstMatch(words, s).value
                 && forall j :: 0 <= j < k ==> !CasePrefix(s, words[1..][j].0);
        assert CasePrefix(s, words[k + 1].0);
        assert forall j :: 0 <= j < k + 1 ==> !CasePrefix(s, words[j].0) by {
          forall j | 0 <= j < k + 1 ensures !CasePrefix(s, words[j].0) {
            if j > 0 { assert words[j] == words[1..][j - 1]; }
          }
        }
      } else {
        forall k | 0 <= k < |words| ensures !CasePrefix(s, words[k].0) {
          if k > 0 { assert words[k] == words[1..][k - 1]; }
        }
      }
    }
  }

  /** One step of the table lookup. */
  lemma FirstMatchStep(words: seq<(string, int)>, s: string, word: string, prio: int)
    requires words != [] && words[0] == (word, prio)
    ensures FirstMatch(words, s) == if CasePrefix(s, word) then Some(prio) else FirstMatch(words[1..], s)
  {
  }

  /** The last five keywords of the table, tried in order. */
  lemma TableTail(s: string)
    ensures FirstMatch(PRIORITY_WORDS[5..], s)
         == if CasePrefix(s, "warn") then Some(PRIO_WARNING)
            else if CasePrefix(s, "notice") then Some(PRIO_NOTICE)
            else if CasePrefix(s, "info") then Some(PRIO_INFORMATION)
            else if CasePrefix(s, "debug") then Some(PRIO_DEBUG)
            else if CasePrefix(s, "trace") then Some(PRIO_TRACE)
            else None
  {
    var w := PRIORITY_WORDS;
    FirstMatchStep(w[5..], s, "warn", PRIO_WARNING);
    assert w[5..][1..] == w[6..];
    FirstMatchStep(w[6..], s, "notice", PRIO_NOTICE);
    assert w[6..][1..] == w[7..];
    FirstMatchStep(w[7..], s, "info", PRIO_INFORMATION);
    assert w[7..][1..] == w[8..];
    FirstMatchStep(w[8..], s, "debug", PRIO_DEBUG);
    assert w[8..][1..] == w[9..];
    FirstMatchStep(w[9..], s, "trace", PRIO_TRACE);
    assert w[9..][1..] == [];
  }

  /** The chain of tests in string_to_priority is the table lookup, with -1 for the
      empty string and "none" and a rejection for anything else. */
  lemma {:induction false} StringToPriorityIsTableLookup(s: string)
    ensures StringToPriority(s) == match FirstMatch(PRIORITY_WORDS, s)
                                   case Some(p) => Level(p)
                                   case None => if s == "" || CasePrefix(s, "none") then Level(-1) else InvalidPriority
  {
    var w := PRIORITY_WORDS;
    FirstMatchStep(w, s, "emergency", 0);
    FirstMatchStep(w[1..], s, "alert", PRIO_FATAL);
    assert w[1..][1..] == w[2..];
    FirstMatchStep(w[2..], s, "fatal", PRIO_FATAL);
    assert w[2..][1..] == w[3..];
    FirstMatchStep(w[3..], s, "critical", PRIO_CRITICAL);
    assert w[3..][1..] == w[4..];
    FirstMatchStep(w[4..], s, "error", PRIO_ERROR);
    assert w[4..][1..] == w[5..];
    TableTail(s);
  }

  /** string_to_priority rejects exactly the non-empty strings that begin with no
      keyword and not with "none". */
  lemma StringToPriorityRejects(s: string)
    ensures StringToPriority(s) == InvalidPriority <==>
              s != "" && !CasePrefix(s, "none") && forall k :: 0 <= k < |PRIORITY_WORDS| ==> !CasePrefix(s, PRIORITY_WORDS[k].0)
  {
    StringToPriorityIsTableLookup(s);
    FirstMatchIsFirst(PRIORITY_WORDS, s);
  }

  /** A longer word names the level, whatever its case: "WARNING" is a warning. */
  lemma WarningIsWarn()
    ensures StringToPriority("WARNING") == Level(PRIO_WARNING)
  {
    var s := "WARNING";
    assert s[0] == 'W' && ToLower('W') == 'w';
    assert s[1] == 'A' && ToLower('A') == 'a' && s[2] == 'R' && ToLower('R') == 'r' && s[3] == 'N' && ToLower('N') == 'n';
    assert !CasePrefix(s, "emergency") && !CasePrefix(s, "alert") && !CasePrefix(s, "fatal");
    assert !CasePrefix(s, "critical") && !CasePrefix(s, "error");
    assert CasePrefix(s, "warn");
  }

  /** "alerting" begins with "alert" and is fatal. */
  lemma AlertingIsFatal()
    ensures StringToPriority("alerting") == Level(PRIO_FATAL)
  {
    var s := "alerting";
    assert s[0] == 'a' && ToLower('a') == 'a' && !CasePrefix(s, "emergency");
    assert CasePrefix(s, "alert");
  }

  /** "None" in any case, and the empty string, switch logging off. */
  lemma NoneIsOff()
    ensures StringToPriority("None") == Level(-1) && StringToPriority("") == Level(-1)
  {
    var s := "None";
    assert s[0] == 'N' && ToLower('N') == 'n';
    assert s[1] == 'o' && s[2] == 'n' && s[3] == 'e';
    assert !CasePrefix(s, "emergency") && !CasePrefix(s, "alert") && !CasePrefix(s, "fatal");
    assert !CasePrefix(s, "critical") && !CasePrefix(s, "error") && !CasePrefix(s, "warn");
    assert ToLower('n') == 'n' && !CasePrefix(s, "notice");
    assert !CasePrefix(s, "info") && !CasePrefix(s, "debug") && !CasePrefix(s, "trace");
    assert ToLower('o') == 'o' && ToLower('e') == 'e' && CasePrefix(s, "none");
  }

  /** A word that is no level is rejected. */
  lemma VerboseIsRejected()
    ensures StringToPriority("verbose") == InvalidPriority
  {
    var s := "verbose";
    assert s[0] == 'v' && ToLower('v') == 'v';
    assert !CasePrefix(s, "emergency") && !CasePrefix(s, "alert") && !CasePrefix(s, "fatal");
    assert !CasePrefix(s, "critical") && !CasePrefix(s, "error") && !CasePrefix(s, "warn");
    assert !CasePrefix(s, "notice") && !CasePrefix(s, "info") && !CasePrefix(s, "debug");
    assert !CasePrefix(s, "trace") && !CasePrefix(s, "none");
  }

  // ---------------------------------------------------------------------------
  // Metric filter lists

  function Min(a: nat, b: nat): nat
  {
    if a <= b then a else b
  }

  /** The list sanitize_limits leaves: empty when its first rule includes
      everything, since then no filter is needed; otherwise reduced by
      optimize_exclude_all and cut to the first hardLimit rules, in order. */
  function Sanitized(v: seq<MetricsFilter>, hardLimit: nat): (r: seq<MetricsFilter>)
    ensures |r| <= hardLimit
    ensures FirstIncludesAll(v) ==> r == []
    ensures !FirstIncludesAll(v) ==>
              r <= ExcludeAllOptimized(v) && |r| == Min(hardLimit, |ExcludeAllOptimized(v)|)
  {
    var w := if FirstIncludesAll(v) then [] else ExcludeAllOptimized(v);
    if |w| > hardLimit then w[..hardLimit] else w
  }

  /** sanitize_limits, on the list the caller passes by reference; hardLimit is
      CUSTOM_METRICS_FILTERS_HARD_LIMIT, defined in a header that is not part of
      this model. */
  method SanitizeLimits(filters: FilterVec, hardLimit: nat)
    modifies filters
    ensures filters.items == Sanitized(old(filters.items), hardLimit)
  {
    if FirstIncludesAll(filters.items) {
      filters.items := [];
    } else {
      OptimizeExcludeAll(filters);
    }
    if |filters.items| > hardLimit {
      filters.items := filters.items[..hardLimit];
    }
  }

  /** A sanitised list never starts with a rule that includes everything, and it
      keeps the first rule of the original when it keeps anything. */
  lemma SanitizedFirstRule(v: seq<MetricsFilter>, hardLimit: nat)
    ensures !FirstIncludesAll(Sanitized(v, hardLimit))
    ensures Sanitized(v, hardLimit) != [] ==> Sanitized(v, hardLimit)[0] == v[0]
  {
    ExcludeAllOptimizedKeepsFirst(v);
  }

  /** Sanitising a sanitised list changes nothing. */
  lemma SanitizedIdempotent(v: seq<MetricsFilter>, hardLimit: nat)
    ensures Sanitized(Sanitized(v, hardLimit), hardLimit) == Sanitized(v, hardLimit)
  {
    var r := Sanitized(v, hardLimit);
    SanitizedFirstRule(v, hardLimit);
    if !FirstIncludesAll(v) && |r| > 1 {
      ExcludeAllOptimizedIsReduced(v);
      assert r[0] == ExcludeAllOptimized(v)[0];
      assert !ExcludesAll(r[0]);
    }
  }

  // ---------------------------------------------------------------------------
  // Paths

  /** normalize_path: empty stays empty and an absolute path is kept as it is; a
      relative path is made absolute against the root directory by Poco's Path,
      which is not part of this model and is passed in as makeAbsolute. */
  function NormalizePath(filePath: string, makeAbsolute: string -> string): (r: string)
    ensures filePath == "" ==> r == ""
    ensures filePath != "" && filePath[0] == '/' ==> r == filePath
  {
    if |filePath| == 0 then []
    else if filePath[0] == '/' then filePath
    else makeAbsolute(filePath)
  }

  /** Normalising an empty or absolute path again changes nothing. */
  lemma NormalizePathFixesAbsolute(filePath: string, makeAbsolute: string -> string)
    requires NormalizePath(filePath, makeAbsolute) == "" || NormalizePath(filePath, makeAbsolute)[0] == '/'
    ensures NormalizePath(NormalizePath(filePath, makeAbsolute), makeAbsolute) == NormalizePath(filePath, makeAbsolute)
  {
  }
}
