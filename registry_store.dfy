/** The registry side of the front-end store (`src/hooks/registry-monitor.ts`): every event text
    the backend sends is parsed into a record and appended to the event log, and a per-key cache
    of change counts and last-modified times is kept in step with the log. */
module RegistryStore {
  import opened Common
  import opened Text
  import RegistryMonitorBackend

  /** `RegistryEvent`; `kind` is the source's `type` field. */
  datatype RegistryEvent = RegistryEvent(kind: string, key: string, value: string,
                                         previousData: Option<string>, newData: Option<string>,
                                         timestamp: string)

  /** One entry of `RegistryCache`. */
  datatype CacheEntry = CacheEntry(changeCount: nat, lastModified: string)

  // ---------------------------------------------------------------------------------------------
  // Keys and the cache

  /** `normalizeKey`: drops the first " was changed." and trims the rest. */
  function NormalizeKey(key: string): string {
    Trim(ReplaceFirst(key, " was changed.", ""))
  }

  /** A trimmed key without " was changed." is already normal. */
  lemma NormalizeKeyFixedPoint(key: string)
    requires IndexOf(key, " was changed.").None?
    requires key != [] ==> !IsWhitespace(key[0]) && !IsWhitespace(key[|key| - 1])
    ensures NormalizeKey(key) == key
  {
    TrimOfTrimmed(key);
  }

  /** One event counted under key `k` at time `t`. */
  function Bump(c: map<string, CacheEntry>, k: string, t: string): map<string, CacheEntry>
  {
    c[k := CacheEntry((if k in c then c[k].changeCount else 0) + 1, t)]
  }

  /** A live event raises its key's count by one and stamps it with the event's time; every other
      entry stays as it was. */
  lemma BumpEffect(c: map<string, CacheEntry>, k: string, t: string)
    ensures k in Bump(c, k, t)
    ensures Bump(c, k, t)[k] == CacheEntry((if k in c then c[k].changeCount else 0) + 1, t)
    ensures forall k' :: k' != k ==> (k' in Bump(c, k, t) <==> k' in c)
    ensures forall k' :: k' != k && k' in c ==> Bump(c, k, t)[k'] == c[k']
  {
  }

  /** The cache `rebuildCache` computes from a log: every event counted in log order. */
  function CacheOf(events: seq<RegistryEvent>): map<string, CacheEntry>
  {
    if events == [] then map[]
    else
      var e := events[|events| - 1];
      Bump(CacheOf(events[..|events| - 1]), NormalizeKey(e.key), e.timestamp)
  }

  /** The number of logged events whose key normalises to `k`. */
  function CountKey(events: seq<RegistryEvent>, k: string): nat
  {
    if events == [] then 0
    else CountKey(events[..|events| - 1], k) + (if NormalizeKey(events[|events| - 1].key) == k then 1 else 0)
  }

  /** The timestamp of the last logged event whose key normalises to `k`. */
  function LastTime(events: seq<RegistryEvent>, k: string): Option<string>
  {
    if events == [] then None
    else if NormalizeKey(events[|events| - 1].key) == k then Some(events[|events| - 1].timestamp)
    else LastTime(events[..|events| - 1], k)
  }

  /** The rebuilt cache holds exactly the keys of the log, each with its number of events and
      the time of its last event. */
  lemma {:induction false} CacheOfMeaning(events: seq<RegistryEvent>, k: string)
    ensures k in CacheOf(events) <==> CountKey(events, k) > 0
    ensures CountKey(events, k) > 0 <==> LastTime(events, k).Some?
    ensures k in CacheOf(events) ==>
      CacheOf(events)[k].changeCount == CountKey(events, k) && CacheOf(events)[k].lastModified == LastTime(events, k).value
  {
    if events != [] {
      CacheOfMeaning(events[..|events| - 1], k);
    }
  }

  /** Counting the event at index `i` extends the cache of the log before it. */
  lemma CacheOfPrefix(events: seq<RegistryEvent>, i: nat)
    requires i < |events|
    ensures CacheOf(events[..i + 1]) == Bump(CacheOf(events[..i]), NormalizeKey(events[i].key), events[i].timestamp)
  {
    assert events[..i + 1][..i] == events[..i];
  }

  /** Counting one more event is the same as rebuilding from the longer log. */
  lemma CacheOfAppend(events: seq<RegistryEvent>, e: RegistryEvent)
    ensures CacheOf(events + [e]) == Bump(CacheOf(events), NormalizeKey(e.key), e.timestamp)
  {
    var s := events + [e];
    assert s[..|s| - 1] == events;
    assert s[|s| - 1] == e;
    assert s != [];
  }

  // ---------------------------------------------------------------------------------------------
  // Parsing an event text

  /** A line that opens an event: `UPDATED:`, `ADDED:` or `REMOVED:`. */
  predicate IsHeader(line: string) {
    StartsWith(line, "UPDATED:") || StartsWith(line, "ADDED:") || StartsWith(line, "REMOVED:")
  }

  const InKey: string := "' in registry key '"

  /** The end of the run of non-quote characters starting at `j`. */
  function QuoteFree(s: string, j: nat): (r: nat)
    requires j <= |s|
    decreases |s| - j
    ensures j <= r <= |s| && '\'' !in s[j..r] && (r < |s| ==> s[r] == '\'')
  {
    if j == |s| || s[j] == '\'' then j else QuoteFree(s, j + 1)
  }

  /** Five adjacent slices make up the slice that spans them. */
  lemma SliceParts(s: string, p0: nat, p1: nat, p2: nat, p3: nat, p4: nat, p5: nat)
    requires p0 <= p1 <= p2 <= p3 <= p4 <= p5 <= |s|
    ensures s[p0..p5] == s[p0..p1] + s[p1..p2] + s[p2..p3] + s[p3..p4] + s[p4..p5]
  {
    assert s[p0..p5] == s[p0..p1] + s[p1..p5];
    assert s[p1..p5] == s[p1..p2] + s[p2..p5];
    assert s[p2..p5] == s[p2..p3] + s[p3..p5];
    assert s[p3..p5] == s[p3..p4] + s[p4..p5];
  }

  /** The regular expression `Value '([^']+)' in registry key '([^']+)'` tried at index `i`: the
      two groups, each a non-empty run of non-quote characters. */
  function MatchAt(s: string, i: nat): (r: Option<(string, string)>)
    ensures r.Some? ==> r.value.0 != [] && r.value.1 != [] && '\'' !in r.value.0 && '\'' !in r.value.1
    ensures r.Some? ==> OccursAt(s, "Value '" + r.value.0 + InKey + r.value.1 + "'", i)
  {
    if !OccursAt(s, "Value '", i) then None
    else
      var a := i + 7;
      var ne := QuoteFree(s, a);
      if ne == a || !OccursAt(s, InKey, ne) then None
      else
        var b := ne + |InKey|;
        var ke := QuoteFree(s, b);
        if ke == b || ke == |s| then None
        else
          MatchParts(s, i, ne, ke);
          Some((s[a..ne], s[b..ke]))
  }

  /** The pieces `MatchAt` found, put back together, are the whole match. */
  lemma MatchParts(s: string, i: nat, ne: nat, ke: nat)
    requires OccursAt(s, "Value '", i) && i + 7 <= ne && OccursAt(s, InKey, ne)
    requires ne + |InKey| <= ke < |s| && s[ke] == '\''
    ensures OccursAt(s, "Value '" + s[i + 7..ne] + InKey + s[ne + |InKey|..ke] + "'", i)
  {
    SliceParts(s, i, i + 7, ne, ne + |InKey|, ke, ke + 1);
  }

  /** `content.match(...)`: the leftmost match at or after `from`. */
  function FindMatch(s: string, from: nat): (r: Option<(string, string)>)
    decreases |s| - from
    ensures r.Some? ==> exists i :: from <= i <= |s| && MatchAt(s, i) == r
    ensures r.None? ==> forall i :: from <= i <= |s| ==> MatchAt(s, i).None?
  {
    if from > |s| then None
    else if MatchAt(s, from).Some? then MatchAt(s, from)
    else FindMatch(s, from + 1)
  }

  /** The data of a `Previous Data:` or `New Data:` line: `split(':')[1]`, trimmed, quotes removed. */
  function DataField(line: string): string
  {
    match SecondField(line, ":")
    case Some(f) => RemoveChar(Trim(f), '\'')
    case None => []
  }

  /** The listener's treatment of a header line: the type before ": " and the two groups of the
      regular expression in the text after it; `None` when the line has no ": " (its second field
      is `undefined`, and the listener throws). */
  function ApplyHeader(ev: RegistryEvent, line: string): Option<RegistryEvent>
  {
    match SecondField(line, ": ")
    case None => None
    case Some(content) =>
      var typed := ev.(kind := Trim(FirstField(line, ": ")));
      match FindMatch(content, 0)
      case Some(m) => Some(typed.(value := m.0, key := m.1))
      case None => Some(typed)
  }

  /** The listener's treatment of one line; `None` when the line throws. */
  function ApplyLine(ev: RegistryEvent, line: string): Option<RegistryEvent>
  {
    if IsHeader(line) then ApplyHeader(ev, line)
    else if StartsWith(line, "Previous Data:") then Some(ev.(previousData := Some(DataField(line))))
    else if StartsWith(line, "New Data:") then Some(ev.(newData := Some(DataField(line))))
    else Some(ev)
  }

  function ApplyLines(ev: RegistryEvent, lines: seq<string>): Option<RegistryEvent>
    decreases |lines|
  {
    if lines == [] then Some(ev)
    else
      match ApplyLine(ev, lines[0])
      case None => None
      case Some(next) => ApplyLines(next, lines[1..])
  }

  /** The record a payload starts as. */
  function Blank(now: string): RegistryEvent {
    RegistryEvent("UNKNOWN", "", "", None, None, now)
  }

  /** The record the listener builds from a payload received at `now`. */
  function ParsePayload(payload: string, now: string): Option<RegistryEvent> {
    ApplyLines(Blank(now), SplitChar(payload, '\n'))
  }

  /** The listener's loop over the lines of a payload. */
  method ParseLines(payload: string, now: string) returns (r: Option<RegistryEvent>)
    ensures r == ParsePayload(payload, now)
  {
    var lines := SplitChar(payload, '\n');
    var ev := Blank(now);
    for i := 0 to |lines|
      invariant ApplyLines(Blank(now), lines) == ApplyLines(ev, lines[i..])
    {
      assert lines[i..][1..] == lines[i + 1..];
      var next := ApplyLine(ev, lines[i]);
      if next.None? {
        return None;
      }
      ev := next.value;
    }
    r := Some(ev);
  }

  /** Lines without a header never touch type, key or value. */
  lemma {:induction false} NoHeaderKeepsIdentity(ev: RegistryEvent, lines: seq<string>)
    requires forall i :: 0 <= i < |lines| ==> !IsHeader(lines[i])
    ensures ApplyLines(ev, lines).Some?
    ensures ApplyLines(ev, lines).value.kind == ev.kind
    ensures ApplyLines(ev, lines).value.key == ev.key && ApplyLines(ev, lines).value.value == ev.value
    ensures ApplyLines(ev, lines).value.timestamp == ev.timestamp
    decreases |lines|
  {
    if lines != [] {
      NoHeaderKeepsIdentity(ApplyLine(ev, lines[0]).value, lines[1..]);
    }
  }

  /** A payload with no header line is still an event, of type "UNKNOWN" with empty key and value. */
  lemma UnknownPayload(payload: string, now: string)
    requires forall i :: 0 <= i < |SplitChar(payload, '\n')| ==> !IsHeader(SplitChar(payload, '\n')[i])
    ensures ParsePayload(payload, now).Some?
    ensures ParsePayload(payload, now).value.kind == "UNKNOWN"
    ensures ParsePayload(payload, now).value.key == "" && ParsePayload(payload, now).value.value == ""
  {
    NoHeaderKeepsIdentity(Blank(now), SplitChar(payload, '\n'));
  }

  // ---------------------------------------------------------------------------------------------
  // Reading back what the backend emits

  /** No ": " occurs in a concatenation of two pieces that lack it, unless the first ends with
      a colon and the second starts with a space. */
  lemma LacksColonSpaceConcat(a: string, b: string)
    requires Lacks(a, ": ") && Lacks(b, ": ")
    requires a == [] || b == [] || a[|a| - 1] != ':' || b[0] != ' '
    ensures Lacks(a + b, ": ")
  {
    var s := a + b;
    forall k | 0 <= k <= |s|
      ensures !OccursAt(s, ": ", k)
    {
      if k + 2 > |s| {
      } else if k + 2 <= |a| {
        assert !OccursAt(a, ": ", k);
        assert a[k..k + 2] == s[k..k + 2];
        assert s[k..k + 2] != ": ";
      } else if k >= |a| {
        assert !OccursAt(b, ": ", k - |a|);
        assert b[k - |a|..k - |a| + 2] == s[k..k + 2];
        assert s[k..k + 2] != ": ";
      } else {
        assert k == |a| - 1;
        assert s[k..k + 2][0] == a[|a| - 1] && s[k..k + 2][1] == b[0];
        assert s[k..k + 2] != ": ";
      }
    }
  }

  /** A string without colons lacks ": ". */
  lemma NoColonLacks(a: string)
    requires ':' !in a
    ensures Lacks(a, ": ")
  {
    forall k | 0 <= k <= |a| ensures !OccursAt(a, ": ", k) {
      if k + 2 <= |a| {
        assert a[k] == a[k..k + 2][0];
      }
    }
  }

  /** A run of non-quote characters from `j` ends at the next quote. */
  lemma {:induction false} QuoteFreeEndsAt(s: string, j: nat, m: nat)
    requires j <= m < |s| && s[m] == '\'' && '\'' !in s[j..m]
    decreases m - j
    ensures QuoteFree(s, j) == m
  {
    if j < m {
      assert s[j] == s[j..m][0];
      assert s[j + 1..m] == s[j..m][1..];
      QuoteFreeEndsAt(s, j + 1, m);
    }
  }

  /** The text the backend writes after "<TYPE>: " on a header line. */
  function Subject(n: string, key: string): string {
    "Value '" + n + InKey + key + "'"
  }

  /** The regular expression finds the value name and the key in the subject text. */
  lemma SubjectMatches(n: string, key: string)
    requires n != [] && key != [] && '\'' !in n && '\'' !in key
    ensures FindMatch(Subject(n, key), 0) == Some((n, key))
  {
    var s := Subject(n, key);
    assert OccursAt(s, "Value '", 0);
    var ne := 7 + |n|;
    assert s[7..ne] == n;
    QuoteFreeEndsAt(s, 7, ne);
    assert s[ne..ne + |InKey|] == InKey;
    var b := ne + |InKey|;
    assert s[b..b + |key|] == key;
    QuoteFreeEndsAt(s, b, b + |key|);
  }

  /** The subject text has no ": " when neither name nor key has. */
  lemma SubjectLacksColonSpace(n: string, key: string)
    requires Lacks(n, ": ") && Lacks(key, ": ")
    ensures Lacks(Subject(n, key), ": ")
  {
    NoColonLacks("Value '");
    NoColonLacks(InKey);
    NoColonLacks("'");
    LacksColonSpaceConcat("Value '", n);
    LacksColonSpaceConcat("Value '" + n, InKey);
    LacksColonSpaceConcat("Value '" + n + InKey, key);
    LacksColonSpaceConcat("Value '" + n + InKey + key, "'");
  }

  /** `split(': ')` on "<head>: <rest>" yields the head and the rest when the head has no colon
      and the rest no ": ". */
  lemma SplitColonSpace(head: string, rest: string)
    requires ':' !in head && Lacks(rest, ": ")
    ensures FirstField(head + ": " + rest, ": ") == head
    ensures SecondField(head + ": " + rest, ": ") == Some(rest)
  {
    forall k | 0 <= k < |head| ensures !OccursAt(head + ": ", ": ", k) {
      assert (head + ": ")[k] == head[k];
    }
    IndexOfAfterPrefix(head, ": ", rest);
    var line := head + ": " + rest;
    assert line[|head| + 2..] == rest;
    assert line[..|head|] == head;
  }

  /** A header "<kind>: <subject>" sets the type, value name and key. */
  lemma HeaderFields(kind: string, n: string, key: string, ev: RegistryEvent)
    requires kind != [] && ':' !in kind && !IsWhitespace(kind[0]) && !IsWhitespace(kind[|kind| - 1])
    requires n != [] && key != [] && '\'' !in n && '\'' !in key
    requires Lacks(n, ": ") && Lacks(key, ": ")
    ensures ApplyHeader(ev, kind + ": " + Subject(n, key)) == Some(ev.(kind := kind, value := n, key := key))
  {
    SubjectLacksColonSpace(n, key);
    SplitColonSpace(kind, Subject(n, key));
    SubjectMatches(n, key);
    TrimOfTrimmed(kind);
  }

  /** The header line of an emitted event yields its type, value name and key. */
  lemma HeaderLineParses(kind: string, n: string, key: string, ev: RegistryEvent)
    requires kind == "UPDATED" || kind == "ADDED" || kind == "REMOVED"
    requires n != [] && key != [] && '\'' !in n && '\'' !in key
    requires Lacks(n, ": ") && Lacks(key, ": ")
    ensures ApplyLine(ev, kind + ": " + Subject(n, key)) == Some(ev.(kind := kind, value := n, key := key))
  {
    var line := kind + ": " + Subject(n, key);
    assert line == (kind + ":") + (" " + Subject(n, key));
    StartsWithHead(kind + ":", " " + Subject(n, key));
    assert IsHeader(line);
    HeaderFields(kind, n, key, ev);
  }

  /** `split(':')[1]` on "<head>:<rest>" yields the rest when neither part has a colon. */
  lemma SplitColon(head: string, rest: string)
    requires ':' !in head && ':' !in rest
    ensures SecondField(head + ":" + rest, ":") == Some(rest)
  {
    forall k | 0 <= k < |head| ensures !OccursAt(head + ":", ":", k) {
      assert (head + ":")[k] == head[k];
    }
    IndexOfAfterPrefix(head, ":", rest);
    assert (head + ":" + rest)[|head| + 1..] == rest;
    forall k | 0 <= k <= |rest| ensures !OccursAt(rest, ":", k) {
      if k + 1 <= |rest| { assert rest[k] == rest[k..k + 1][0]; }
    }
  }

  /** Trimming and unquoting " '<x>'" gives back `x`. */
  lemma UnquoteData(x: string)
    requires '\'' !in x
    ensures RemoveChar(Trim(" '" + x + "'"), '\'') == x
  {
    TrimQuoted(x);
    RemoveQuotes(x);
  }

  /** Trimming " '<x>'" drops the leading space only. */
  lemma TrimQuoted(x: string)
    ensures Trim(" '" + x + "'") == "'" + x + "'"
  {
    var quoted := "'" + x + "'";
    assert " '" + x + "'" == " " + quoted;
    assert (" " + quoted)[1..] == quoted;
    assert TrimStart(" " + quoted) == TrimStart(quoted);
    TrimOfTrimmed(quoted);
  }

  /** Removing the quotes around a quote-free `x` gives `x`. */
  lemma RemoveQuotes(x: string)
    requires '\'' !in x
    ensures RemoveChar("'" + x + "'", '\'') == x
  {
    assert "'" + x + "'" == "'" + (x + "'");
    RemoveCharAppend("'", x + "'", '\'');
    RemoveCharAppend(x, "'", '\'');
  }

  /** A data line `<tag>: '<x>'` yields `x` when `x` has no colon and no quote. */
  lemma DataLineParses(tag: string, x: string)
    requires ':' !in tag && ':' !in x && '\'' !in x
    ensures DataField(tag + ": '" + x + "'") == x
  {
    assert tag + ": '" + x + "'" == tag + ":" + (" '" + x + "'");
    SplitColon(tag, " '" + x + "'");
    UnquoteData(x);
  }

  /** A "Previous Data" line sets the previous data. */
  lemma PreviousDataLine(ev: RegistryEvent, o: string)
    requires ':' !in o && '\'' !in o
    ensures ApplyLine(ev, "Previous Data: '" + o + "'") == Some(ev.(previousData := Some(o)))
  {
    var line := "Previous Data: '" + o + "'";
    assert line == "Previous Data:" + (" '" + o + "'");
    StartsWithHead("Previous Data:", " '" + o + "'");
    NotHeader(line);
    assert line == "Previous Data" + ": '" + o + "'";
    DataLineParses("Previous Data", o);
  }

  /** A "New Data" line sets the new data. */
  lemma NewDataLine(ev: RegistryEvent, d: string)
    requires ':' !in d && '\'' !in d
    ensures ApplyLine(ev, "New Data: '" + d + "'") == Some(ev.(newData := Some(d)))
  {
    var line := "New Data: '" + d + "'";
    assert line == "New Data:" + (" '" + d + "'");
    StartsWithHead("New Data:", " '" + d + "'");
    NotHeader(line);
    NotStartsWithOther(line, "Previous Data:");
    assert line == "New Data" + ": '" + d + "'";
    DataLineParses("New Data", d);
  }

  /** A line whose first letter is none of `U`, `A` and `R` is no header. */
  lemma NotHeader(line: string)
    requires line != [] && line[0] != 'U' && line[0] != 'A' && line[0] != 'R'
    ensures !IsHeader(line)
  {
    NotStartsWithOther(line, "UPDATED:");
    NotStartsWithOther(line, "ADDED:");
    NotStartsWithOther(line, "REMOVED:");
  }

  /** Applying a line that does not throw, then the rest. */
  lemma ApplyLinesCons(ev: RegistryEvent, line: string, rest: seq<string>, next: RegistryEvent)
    requires ApplyLine(ev, line) == Some(next)
    ensures ApplyLines(ev, [line] + rest) == ApplyLines(next, rest)
  {
    assert ([line] + rest)[1..] == rest;
  }

  /** Two lines joined by a newline split back into the two. */
  lemma TwoLines(l1: string, l2: string)
    requires '\n' !in l1 && '\n' !in l2
    ensures SplitChar(l1 + "\n" + l2, '\n') == [l1, l2]
  {
    assert l1 + "\n" + l2 == l1 + ['\n'] + l2;
    SplitCharCons(l1, '\n', l2);
    SplitCharNone(l2, '\n');
  }

  /** Three lines joined by newlines split back into the three. */
  lemma ThreeLines(l1: string, l2: string, l3: string)
    requires '\n' !in l1 && '\n' !in l2 && '\n' !in l3
    ensures SplitChar(l1 + "\n" + l2 + "\n" + l3, '\n') == [l1, l2, l3]
  {
    assert l1 + "\n" + l2 + "\n" + l3 == l1 + ['\n'] + (l2 + "\n" + l3);
    SplitCharCons(l1, '\n', l2 + "\n" + l3);
    TwoLines(l2, l3);
  }

  /** The conditions under which an emitted event text reads back: the name and key are
      non-empty, single-line, without quotes and without ": "; the data texts are single-line,
      without colons and without quotes. */
  predicate ReadableNames(n: string, key: string) {
    n != [] && key != [] && '\'' !in n && '\'' !in key && Lacks(n, ": ") && Lacks(key, ": ") &&
    '\n' !in n && '\n' !in key
  }

  predicate ReadableData(x: string) {
    ':' !in x && '\'' !in x && '\n' !in x
  }

  /** A payload of two lines that apply without throwing. */
  lemma ParseTwo(payload: string, now: string, l1: string, l2: string, e1: RegistryEvent, e2: RegistryEvent)
    requires SplitChar(payload, '\n') == [l1, l2]
    requires ApplyLine(Blank(now), l1) == Some(e1) && ApplyLine(e1, l2) == Some(e2)
    ensures ParsePayload(payload, now) == Some(e2)
  {
    ApplyLinesCons(Blank(now), l1, [l2], e1);
    ApplyLinesCons(e1, l2, [], e2);
    assert [l1] + [l2] == [l1, l2] && [l2] + [] == [l2];
  }

  /** A payload of three lines that apply without throwing. */
  lemma ParseThree(payload: string, now: string, l1: string, l2: string, l3: string,
                   e1: RegistryEvent, e2: RegistryEvent, e3: RegistryEvent)
    requires SplitChar(payload, '\n') == [l1, l2, l3]
    requires ApplyLine(Blank(now), l1) == Some(e1) && ApplyLine(e1, l2) == Some(e2) && ApplyLine(e2, l3) == Some(e3)
    ensures ParsePayload(payload, now) == Some(e3)
  {
    ApplyLinesCons(Blank(now), l1, [l2, l3], e1);
    ApplyLinesCons(e1, l2, [l3], e2);
    ApplyLinesCons(e2, l3, [], e3);
    assert [l1] + [l2, l3] == [l1, l2, l3] && [l2] + [l3] == [l2, l3] && [l3] + [] == [l3];
  }

  /** A header line of the backend, as the listener reads it, and it has no line break. */
  lemma HeaderText(kind: string, n: string, key: string)
    requires '\n' !in kind && '\n' !in n && '\n' !in key
    ensures RegistryMonitorBackend.HeaderLine(kind, n, key) == kind + ": " + Subject(n, key)
    ensures '\n' !in kind + ": " + Subject(n, key)
  {
  }

  /** A `Previous Data:` line of the backend has no line break. */
  lemma PreviousDataText(o: string)
    requires '\n' !in o
    ensures RegistryMonitorBackend.DataLine("Previous Data", o) == "Previous Data: '" + o + "'"
    ensures '\n' !in "Previous Data: '" + o + "'"
  {
  }

  /** A `New Data:` line of the backend has no line break. */
  lemma NewDataText(d: string)
    requires '\n' !in d
    ensures RegistryMonitorBackend.DataLine("New Data", d) == "New Data: '" + d + "'"
    ensures '\n' !in "New Data: '" + d + "'"
  {
  }

  /** The lines of an emitted UPDATED text. */
  lemma UpdatedLines(key: string, n: string, o: string, d: string)
    requires ReadableNames(n, key) && '\n' !in o && '\n' !in d
    ensures SplitChar(RegistryMonitorBackend.ChangeText(key, RegistryMonitorBackend.Updated(n, o, d)), '\n')
      == ["UPDATED" + ": " + Subject(n, key), "Previous Data: '" + o + "'", "New Data: '" + d + "'"]
  {
    HeaderText("UPDATED", n, key);
    PreviousDataText(o);
    NewDataText(d);
    ThreeLines("UPDATED" + ": " + Subject(n, key), "Previous Data: '" + o + "'", "New Data: '" + d + "'");
  }

  /** The lines of an emitted ADDED text. */
  lemma AddedLines(key: string, n: string, d: string)
    requires ReadableNames(n, key) && '\n' !in d
    ensures SplitChar(RegistryMonitorBackend.ChangeText(key, RegistryMonitorBackend.Added(n, d)), '\n')
      == ["ADDED" + ": " + Subject(n, key), "New Data: '" + d + "'"]
  {
    HeaderText("ADDED", n, key);
    NewDataText(d);
    TwoLines("ADDED" + ": " + Subject(n, key), "New Data: '" + d + "'");
  }

  /** The lines of an emitted REMOVED text. */
  lemma RemovedLines(key: string, n: string, o: string)
    requires ReadableNames(n, key) && '\n' !in o
    ensures SplitChar(RegistryMonitorBackend.ChangeText(key, RegistryMonitorBackend.Removed(n, o)), '\n')
      == ["REMOVED" + ": " + Subject(n, key), "Previous Data: '" + o + "'"]
  {
    HeaderText("REMOVED", n, key);
    PreviousDataText(o);
    TwoLines("REMOVED" + ": " + Subject(n, key), "Previous Data: '" + o + "'");
  }

  /** Reading an UPDATED text of the backend back recovers its type, value name, key and both
      data texts. */
  lemma ReadsBackUpdated(key: string, n: string, o: string, d: string, now: string)
    requires ReadableNames(n, key) && ReadableData(o) && ReadableData(d)
    ensures ParsePayload(RegistryMonitorBackend.ChangeText(key, RegistryMonitorBackend.Updated(n, o, d)), now)
      == Some(RegistryEvent("UPDATED", key, n, Some(o), Some(d), now))
  {
    var e1 := Blank(now).(kind := "UPDATED", value := n, key := key);
    var e2 := e1.(previousData := Some(o));
    UpdatedLines(key, n, o, d);
    HeaderLineParses("UPDATED", n, key, Blank(now));
    PreviousDataLine(e1, o);
    NewDataLine(e2, d);
    ParseThree(RegistryMonitorBackend.ChangeText(key, RegistryMonitorBackend.Updated(n, o, d)), now,
      "UPDATED" + ": " + Subject(n, key), "Previous Data: '" + o + "'", "New Data: '" + d + "'",
      e1, e2, e2.(newData := Some(d)));
  }

  /** Reading an ADDED text back recovers its type, value name, key and new data. */
  lemma ReadsBackAdded(key: string, n: string, d: string, now: string)
    requires ReadableNames(n, key) && ReadableData(d)
    ensures ParsePayload(RegistryMonitorBackend.ChangeText(key, RegistryMonitorBackend.Added(n, d)), now)
      == Some(RegistryEvent("ADDED", key, n, None, Some(d), now))
  {
    var e1 := Blank(now).(kind := "ADDED", value := n, key := key);
    AddedLines(key, n, d);
    HeaderLineParses("ADDED", n, key, Blank(now));
    NewDataLine(e1, d);
    ParseTwo(RegistryMonitorBackend.ChangeText(key, RegistryMonitorBackend.Added(n, d)), now,
      "ADDED" + ": " + Subject(n, key), "New Data: '" + d + "'", e1, e1.(newData := Some(d)));
  }

  /** Reading a REMOVED text back recovers its type, value name, key and previous data. */
  lemma ReadsBackRemoved(key: string, n: string, o: string, now: string)
    requires ReadableNames(n, key) && ReadableData(o)
    ensures ParsePayload(RegistryMonitorBackend.ChangeText(key, RegistryMonitorBackend.Removed(n, o)), now)
      == Some(RegistryEvent("REMOVED", key, n, Some(o), None, now))
  {
    var e1 := Blank(now).(kind := "REMOVED", value := n, key := key);
    RemovedLines(key, n, o);
    HeaderLineParses("REMOVED", n, key, Blank(now));
    PreviousDataLine(e1, o);
    ParseTwo(RegistryMonitorBackend.ChangeText(key, RegistryMonitorBackend.Removed(n, o)), now,
      "REMOVED" + ": " + Subject(n, key), "Previous Data: '" + o + "'", e1, e1.(previousData := Some(o)));
  }

  // ---------------------------------------------------------------------------------------------
  // Data containing a colon

  /** Splitting at every colon, the second piece of `<head>:<a>:<b>` is `a`. */
  lemma SplitColonCut(head: string, a: string, b: string)
    requires ':' !in head && ':' !in a
    ensures SecondField(head + ":" + a + ":" + b, ":") == Some(a)
  {
    forall k | 0 <= k < |head| ensures !OccursAt(head + ":", ":", k) {
      assert (head + ":")[k] == head[k];
    }
    IndexOfAfterPrefix(head, ":", a + ":" + b);
    assert head + ":" + a + ":" + b == head + ":" + (a + ":" + b);
    assert (head + ":" + (a + ":" + b))[|head| + 1..] == a + ":" + b;
    forall k | 0 <= k < |a| ensures !OccursAt(a + ":", ":", k) {
      assert (a + ":")[k] == a[k];
    }
    IndexOfAfterPrefix(a, ":", b);
    assert (a + ":" + b)[..|a|] == a;
  }

  /** Trimming and unquoting " '<a>" gives back `a` when `a` ends in no whitespace. */
  lemma UnquoteCut(a: string)
    requires '\'' !in a && a != [] && !IsWhitespace(a[|a| - 1])
    ensures RemoveChar(Trim(" '" + a), '\'') == a
  {
    var quoted := "'" + a;
    assert " '" + a == " " + quoted;
    assert (" " + quoted)[1..] == quoted;
    assert TrimStart(" " + quoted) == TrimStart(quoted);
    TrimOfTrimmed(quoted);
    RemoveCharAppend("'", a, '\'');
  }

  /** As written, a data line keeps only what comes before the data's first colon: the line is
      split at every `:` and only the second piece is read. */
  lemma DataLineCutAtColon(tag: string, a: string, b: string)
    requires ':' !in tag && ':' !in a && '\'' !in a
    requires a != [] && !IsWhitespace(a[|a| - 1])
    ensures DataField(tag + ": '" + a + ":" + b) == a
  {
    var spaced := " '" + a;
    assert tag + ": '" + a + ":" + b == tag + ":" + spaced + ":" + b;
    assert ':' !in spaced;
    SplitColonCut(tag, spaced, b);
    UnquoteCut(a);
  }

  /** A "New Data" line whose data holds a colon sets the new data to the part before it. */
  lemma NewDataLineCut(ev: RegistryEvent, a: string, b: string)
    requires ':' !in a && '\'' !in a && a != [] && !IsWhitespace(a[|a| - 1])
    ensures ApplyLine(ev, "New Data: '" + a + ":" + b) == Some(ev.(newData := Some(a)))
  {
    var line := "New Data: '" + a + ":" + b;
    assert line == "New Data:" + (" '" + a + ":" + b);
    StartsWithHead("New Data:", " '" + a + ":" + b);
    NotHeader(line);
    NotStartsWithOther(line, "Previous Data:");
    assert line == "New Data" + ": '" + a + ":" + b;
    DataLineCutAtColon("New Data", a, b);
  }

  /** Regrouping a line around the data's colon. */
  lemma RegroupCut(p: string, a: string, b: string, q: string)
    ensures p + (a + ":" + b) + q == p + a + ":" + (b + q)
  {
  }

  /** Hence an ADDED text whose new data is `<a>:<b>` is read back with new data `a` only. */
  lemma AsWrittenDataCutAtColon(key: string, n: string, a: string, b: string, now: string)
    requires ReadableNames(n, key) && '\n' !in a && '\n' !in b
    requires ':' !in a && '\'' !in a && a != [] && !IsWhitespace(a[|a| - 1])
    ensures ParsePayload(RegistryMonitorBackend.ChangeText(key, RegistryMonitorBackend.Added(n, a + ":" + b)), now)
      == Some(RegistryEvent("ADDED", key, n, None, Some(a), now))
  {
    var d := a + ":" + b;
    var e1 := Blank(now).(kind := "ADDED", value := n, key := key);
    AddedLines(key, n, d);
    HeaderLineParses("ADDED", n, key, Blank(now));
    RegroupCut("New Data: '", a, b, "'");
    NewDataLineCut(e1, a, b + "'");
    ParseTwo(RegistryMonitorBackend.ChangeText(key, RegistryMonitorBackend.Added(n, d)), now,
      "ADDED" + ": " + Subject(n, key), "New Data: '" + d + "'", e1, e1.(newData := Some(a)));
  }

  /** For instance a drive path loses everything from its colon: new data `C:\x` is read back
      as `C`. */
  lemma AsWrittenDrivePathCut(key: string, n: string, now: string)
    requires ReadableNames(n, key)
    ensures ParsePayload(RegistryMonitorBackend.ChangeText(key, RegistryMonitorBackend.Added(n, "C:\\x")), now)
      == Some(RegistryEvent("ADDED", key, n, None, Some("C"), now))
  {
    assert "C:\\x" == "C" + ":" + "\\x";
    AsWrittenDataCutAtColon(key, n, "C", "\\x", now);
  }

  /** The surrounding quotes of a data text, when it has both. */
  function Unquoted(s: string): (r: string)
    ensures |s| >= 2 && s[0] == '\'' && s[|s| - 1] == '\'' ==> "'" + r + "'" == s
  {
    if |s| >= 2 && s[0] == '\'' && s[|s| - 1] == '\'' then s[1..|s| - 1] else s
  }

  /** The data of a `Previous Data:` or `New Data:` line as the backend writes it: everything
      after the first `": "`, trimmed, without the quotes around it. */
  function DataFieldMeant(line: string): string {
    match IndexOf(line, ": ")
    case None => []
    case Some(i) => Unquoted(Trim(line[i + 2..]))
  }

  /** The intended reading looks past the tag's `": "` only. */
  lemma DataFieldMeantAfterTag(tag: string, rest: string)
    requires ':' !in tag
    ensures DataFieldMeant(tag + ": " + rest) == Unquoted(Trim(rest))
  {
    forall k | 0 <= k < |tag| ensures !OccursAt(tag + ": ", ": ", k) {
      assert (tag + ": ")[k] == tag[k];
    }
    IndexOfAfterPrefix(tag, ": ", rest);
    assert (tag + ": " + rest)[|tag| + 2..] == rest;
  }

  /** The intended reading gives back any data text, colons and quotes included. */
  lemma DataFieldMeantReadsBack(tag: string, x: string)
    requires ':' !in tag
    ensures DataFieldMeant(tag + ": '" + x + "'") == x
  {
    var quoted := "'" + x + "'";
    assert tag + ": '" + x + "'" == tag + ": " + quoted;
    DataFieldMeantAfterTag(tag, quoted);
    TrimOfTrimmed(quoted);
    assert quoted[1..|quoted| - 1] == x;
  }

  /** On data without a colon or a quote the two readings agree, so the reading as written is
      wrong exactly on the data the intended one adds. */
  lemma DataFieldsAgree(tag: string, x: string)
    requires ':' !in tag && ':' !in x && '\'' !in x
    ensures DataField(tag + ": '" + x + "'") == DataFieldMeant(tag + ": '" + x + "'") == x
  {
    DataLineParses(tag, x);
    DataFieldMeantReadsBack(tag, x);
  }

  /** The corrected reading keeps the drive path whole. */
  lemma DrivePathReadsBackMeant()
    ensures DataFieldMeant("New Data: 'C:\\x'") == "C:\\x"
  {
    DataFieldMeantReadsBack("New Data", "C:\\x");
    assert "New Data" + ": '" + "C:\\x" + "'" == "New Data: 'C:\\x'";
  }

  // ---------------------------------------------------------------------------------------------
  // The store

  /** What the store last handed to its `updateState` callback. */
  datatype Published = Published(isMonitoring: bool, events: seq<RegistryEvent>)

  /** `RegistryMonitor` of the front end; `saved` is the decoded `registryEvents` item of local
      storage (`None` when absent). */
  class RegistryMonitor {
    var isMonitoring: bool
    var events: seq<RegistryEvent>
    var cache: map<string, CacheEntry>
    var saved: Option<seq<RegistryEvent>>
    var published: Option<Published>

    /** The cache always equals a rebuild from the log. */
    ghost predicate Valid()
      reads this
    {
      cache == CacheOf(events)
    }

    /** The constructor: loads the saved log, if any, and rebuilds the cache from it. */
    constructor(saved: Option<seq<RegistryEvent>>)
      ensures Valid() && !isMonitoring && this.saved == saved && published.None?
      ensures events == (if saved.Some? then saved.value else [])
    {
      isMonitoring := false;
      this.saved := saved;
      published := None;
      cache := map[];
      events := [];
      new;
      if saved.Some? {
        events := saved.value;
        RebuildCache();
      }
    }

    /** `rebuildCache`: counts every logged event afresh. */
    method RebuildCache()
      modifies this
      ensures Valid()
      ensures events == old(events) && isMonitoring == old(isMonitoring)
      ensures saved == old(saved) && published == old(published)
    {
      var log := events;
      var c := map[];
      for i := 0 to |log|
        invariant c == CacheOf(log[..i])
        modifies {}
      {
        CacheOfPrefix(log, i);
        var e := log[i];
        c := Bump(c, NormalizeKey(e.key), e.timestamp);
      }
      assert log[..|log|] == log;
      cache := c;
    }

    /** The listener: parses a payload received at `now`, counts it under its normalised key,
        appends it to the log and saves the log. A payload that throws changes nothing. */
    method ReceivePayload(payload: string, now: string)
      requires Valid()
      modifies this
      ensures Valid()
      ensures ParsePayload(payload, now).None? ==>
        events == old(events) && cache == old(cache) && saved == old(saved) && published == old(published)
      ensures ParsePayload(payload, now).Some? ==>
        var e := ParsePayload(payload, now).value;
        events == old(events) + [e] &&
        cache == Bump(old(cache), NormalizeKey(e.key), e.timestamp) &&
        saved == Some(events) && published == Some(Published(isMonitoring, events))
      ensures isMonitoring == old(isMonitoring)
    {
      var parsed := ParseLines(payload, now);
      if parsed.None? {
        return;
      }
      var e := parsed.value;
      CacheOfAppend(events, e);
      cache := Bump(cache, NormalizeKey(e.key), e.timestamp);
      events := events + [e];
      saved := Some(events);
      published := Some(Published(isMonitoring, events));
    }

    /** `getChangeCount`: the number of logged events under the normalised key, 0 for a key
        never seen. */
    function GetChangeCount(key: string): (r: nat)
      requires Valid()
      reads this
      ensures r == CountKey(events, NormalizeKey(key))
    {
      CacheOfMeaning(events, NormalizeKey(key));
      var k := NormalizeKey(key);
      if k in cache then cache[k].changeCount else 0
    }

    /** `getLastModified`: the time of the last logged event under the normalised key; `None`
        (`null`) for a key never seen or an empty time. */
    function GetLastModified(key: string): (r: Option<string>)
      requires Valid()
      reads this
      ensures r.Some? <==> LastTime(events, NormalizeKey(key)).Some? && LastTime(events, NormalizeKey(key)).value != ""
      ensures r.Some? ==> r == LastTime(events, NormalizeKey(key))
    {
      CacheOfMeaning(events, NormalizeKey(key));
      var k := NormalizeKey(key);
      if k in cache && cache[k].lastModified != "" then Some(cache[k].lastModified) else None
    }

    /** `clearStorage`: empties the log, the cache and the saved item. */
    method ClearStorage()
      modifies this
      ensures Valid() && events == [] && cache == map[] && saved.None?
      ensures isMonitoring == old(isMonitoring) && published == Some(Published(isMonitoring, []))
    {
      events := [];
      cache := map[]; assert CacheOf(events) == cache;
      saved := None;
      published := Some(Published(isMonitoring, events));
    }

    /** `checkMonitoringStatus`: adopts the backend's answer, or fails with its error. */
    method CheckMonitoringStatus(answer: Result<bool>) returns (r: Result<()>)
      modifies this
      ensures answer.Ok? ==> r.Ok? && isMonitoring == answer.value && published == Some(Published(isMonitoring, events))
      ensures answer.Err? ==> r == Err(answer.error) && isMonitoring == old(isMonitoring) && published == old(published)
      ensures events == old(events) && cache == old(cache) && saved == old(saved)
    {
      if answer.Err? {
        return Err(answer.error);
      }
      isMonitoring := answer.value;
      published := Some(Published(isMonitoring, events));
      r := Ok(());
    }

    /** `startMonitoring`: only when not monitoring; `reply` is the backend command's outcome. */
    method StartMonitoring(reply: Reply) returns (r: Result<()>)
      modifies this
      ensures old(isMonitoring) ==> r.Ok? && isMonitoring && published == old(published)
      ensures !old(isMonitoring) && reply.Done? ==> r.Ok? && isMonitoring && published == Some(Published(true, events))
      ensures !old(isMonitoring) && reply.Threw? ==> r == Err(reply.message) && !isMonitoring && published == old(published)
      ensures events == old(events) && cache == old(cache) && saved == old(saved)
    {
      if !isMonitoring {
        if reply.Threw? {
          return Err(reply.message);
        }
        isMonitoring := true;
        published := Some(Published(isMonitoring, events));
      }
      r := Ok(());
    }

    /** `stopMonitoring`: only when monitoring; `reply` is the backend command's outcome. */
    method StopMonitoring(reply: Reply) returns (r: Result<()>)
      modifies this
      ensures !old(isMonitoring) ==> r.Ok? && !isMonitoring && published == old(published)
      ensures old(isMonitoring) && reply.Done? ==> r.Ok? && !isMonitoring && published == Some(Published(false, events))
      ensures old(isMonitoring) && reply.Threw? ==> r == Err(reply.message) && isMonitoring && published == old(published)
      ensures events == old(events) && cache == old(cache) && saved == old(saved)
    {
      if isMonitoring {
        if reply.Threw? {
          return Err(reply.message);
        }
        isMonitoring := false;
        published := Some(Published(isMonitoring, events));
      }
      r := Ok(());
    }
  }
}
