/** Grounding a native Markdown answer: which links count as journal citations, and which mode
    their independent verification earns. */
module NativeEvidence {
  import opened Wrappers
  import opened JsonValues
  import opened QueryContract
  import BackendSse

  const MAX_CANDIDATES := 20
  const PREFIX := "/journal"

  // ----- _journal_id_from_native_href -----

  predicate Alnum(c: char) {
    'A' <= c <= 'Z' || 'a' <= c <= 'z' || '0' <= c <= '9'
  }

  predicate SafeChar(c: char) {
    Alnum(c) || c == '.' || c == '_' || c == '-'
  }

  /** `segment.split("/")`. */
  function SplitSlash(s: string): (segments: seq<string>)
    ensures segments != []
  {
    if s == "" then [""]
    else
      var rest := SplitSlash(s[1..]);
      if s[0] == '/' then [""] + rest else [[s[0]] + rest[0]] + rest[1..]
  }

  predicate AllSafe(s: string) {
    forall k | 0 <= k < |s| :: SafeChar(s[k])
  }

  /** The segment pattern; Python's `$` also matches before a final newline. */
  predicate SafeSegment(s: string) {
    && s != "" && Alnum(s[0])
    && (AllSafe(s) || (s[|s| - 1] == '\n' && AllSafe(s[..|s| - 1])))
  }

  /** `text != text.strip()`. */
  predicate Padded(s: string) {
    s != "" && (BackendSse.IsSpace(s[0]) || BackendSse.IsSpace(s[|s| - 1]))
  }

  function JournalId(href: string): Option<string> {
    if Padded(href) || !("/journal/" <= href) then None
    else
      var id := href[|"/journal/"|..];
      if id == "" || '\\' in id || '?' in id || '#' in id || '%' in id || ':' in id then None
      else if exists segment <- SplitSlash(id) :: !SafeSegment(segment) then None
      else Some(id)
  }

  /** A canonical journal id, said without splitting it: safe characters and slashes only, a
      letter or digit at every start of a segment, and no slash at the end. In particular no
      segment is empty, `.` or `..`. */
  predicate CanonicalId(id: string) {
    && id != "" && id[|id| - 1] != '/'
    && (forall k | 0 <= k < |id| :: SafeChar(id[k]) || id[k] == '/')
    && Alnum(id[0]) && (forall k | 0 < k < |id| :: id[k - 1] == '/' ==> Alnum(id[k]))
  }

  /** A text that may continue a segment. */
  predicate Continues(s: string) {
    && (s != "" ==> s[|s| - 1] != '/')
    && (forall k | 0 <= k < |s| :: SafeChar(s[k]) || s[k] == '/')
    && (forall k | 0 < k < |s| :: s[k - 1] == '/' ==> Alnum(s[k]))
  }

  predicate SegmentsContinue(s: string) {
    AllSafe(SplitSlash(s)[0]) && forall segment <- SplitSlash(s)[1..] :: SafeSegment(segment)
  }

  lemma SegmentStart(s: string)
    ensures var first := SplitSlash(s)[0];
            first == "" <==> s == "" || s[0] == '/'
    ensures s != "" && s[0] != '/' ==> SplitSlash(s)[0][0] == s[0]
  {
  }

  lemma {:induction false} FirstSegmentInside(s: string)
    requires '\n' !in s
    ensures '\n' !in SplitSlash(s)[0]
  {
    if s != "" {
      FirstSegmentInside(s[1..]);
    }
  }

  lemma SegmentsSafe(s: string)
    requires '\n' !in s
    ensures (forall segment <- SplitSlash(s) :: SafeSegment(segment)) <==>
              s != "" && Alnum(s[0]) && SegmentsContinue(s)
  {
    var r := SplitSlash(s);
    SegmentStart(s);
    FirstSegmentInside(s);
    assert r == [r[0]] + r[1..];
    assert r[0] != "" ==> r[0][|r[0]| - 1] != '\n';
    assert r[0] in r;
    assert forall segment <- r :: segment == r[0] || segment in r[1..];
  }

  lemma AllSafeCons(c: char, s: string)
    ensures AllSafe([c] + s) <==> SafeChar(c) && AllSafe(s)
  {
    var t := [c] + s;
    assert t[0] == c && forall k | 0 <= k < |s| :: t[k + 1] == s[k];
  }

  lemma {:induction false} SegmentsContinueIff(s: string)
    requires '\n' !in s
    ensures SegmentsContinue(s) <==> Continues(s)
  {
    if s != "" {
      SegmentsContinueIff(s[1..]);
      SegmentsSafe(s[1..]);
      assert Continues(s) <==>
        && (SafeChar(s[0]) || s[0] == '/') && (s[0] == '/' ==> s[1..] != "" && Alnum(s[1])) && Continues(s[1..]) by {
        ContinuesStep(s);
      }
      if s[0] == '/' {
        assert SplitSlash(s)[1..] == SplitSlash(s[1..]);
      } else {
        assert SplitSlash(s)[1..] == SplitSlash(s[1..])[1..];
        AllSafeCons(s[0], SplitSlash(s[1..])[0]);
      }
    }
  }

  lemma ContinuesStep(s: string)
    requires s != ""
    ensures Continues(s) <==>
      && (SafeChar(s[0]) || s[0] == '/') && (s[0] == '/' ==> s[1..] != "" && Alnum(s[1])) && Continues(s[1..])
  {
    var t := s[1..];
    if Continues(t) {
      forall k | 1 < k < |s| && s[k - 1] == '/' ensures Alnum(s[k]) { assert t[k - 2] == '/' && t[k - 1] == s[k]; }
      forall k | 0 < k < |s| ensures SafeChar(s[k]) || s[k] == '/' { assert t[k - 1] == s[k]; }
    }
    if Continues(s) {
      forall k | 0 < k < |t| && t[k - 1] == '/' ensures Alnum(t[k]) { assert s[k] == '/' && s[k + 1] == t[k]; }
      forall k | 0 <= k < |t| ensures SafeChar(t[k]) || t[k] == '/' { assert s[k + 1] == t[k]; }
    }
  }

  lemma JournalIdWithoutNewline(href: string, id: string)
    requires '\n' !in href
    ensures JournalId(href) == Some(id) <==> href == "/journal/" + id && CanonicalId(id)
  {
    if "/journal/" <= href {
      var found := href[|"/journal/"|..];
      SegmentsSafe(found);
      SegmentsContinueIff(found);
      assert href == "/journal/" + found;
      if CanonicalId(found) {
        assert href[|href| - 1] == found[|found| - 1];
        assert href[0] == '/';
      }
    }
  }

  /** The links accepted as a journal, newlines aside, are exactly the canonical routes of
      canonical ids; nothing is decoded or repaired. An accepted id is canonical if and only if
      its link holds no newline, and the link pattern of the caller excludes one. */
  lemma JournalIdIff(href: string, id: string)
    ensures href == "/journal/" + id && CanonicalId(id) <==> JournalId(href) == Some(id) && '\n' !in href
    ensures JournalId(href) == Some(id) ==> (CanonicalId(id) <==> '\n' !in href)
  {
    if href == "/journal/" + id && CanonicalId(id) {
      forall k | 0 <= k < |href|
        ensures href[k] != '\n'
      {
        assert k < |"/journal/"| ==> href[k] == "/journal/"[k];
        assert k >= |"/journal/"| ==> href[k] == id[k - |"/journal/"|];
      }
      JournalIdWithoutNewline(href, id);
    }
    if '\n' !in href {
      JournalIdWithoutNewline(href, id);
    }
    if JournalId(href) == Some(id) {
      assert href == "/journal/" + id;
    }
  }

  /** Outside the link pattern the newline would matter: the segment pattern lets one through. */
  lemma NewlineSlipsThrough()
    ensures JournalId("/journal/a\n/b") == Some("a\n/b") && !CanonicalId("a\n/b")
  {
    var href, id := "/journal/a\n/b", "a\n/b";
    assert href[|"/journal/"|..] == id;
    TwoSegments();
    hide SplitSlash;
    assert SafeSegment("a\n") by { assert "a\n"[..1] == "a"; }
    assert !SafeChar(id[1]) && id[1] != '/';
  }

  lemma TwoSegments()
    ensures SplitSlash("a\n/b") == ["a\n", "b"]
  {
    hide SplitSlash;
    LastSegment();
    SplitSlashCons('\n', "/b");
    SplitSlashCons('a', "\n/b");
    assert ['\n'] + "/b" == "\n/b" && ['a'] + "\n/b" == "a\n/b";
    assert ["", "b"][1..] == ["b"] && ["\n", "b"][1..] == ["b"];
    assert ['\n'] + "" == "\n" && ['a'] + "\n" == "a\n";
  }

  lemma LastSegment()
    ensures SplitSlash("/b") == ["", "b"]
  {
    SplitSlashCons('b', "");
    SplitSlashCons('/', "b");
    assert ['b'] + "" == "b" && ['/'] + "b" == "/b";
  }

  lemma SplitSlashCons(c: char, s: string)
    ensures SplitSlash([c] + s) ==
              if c == '/' then [""] + SplitSlash(s) else [[c] + SplitSlash(s)[0]] + SplitSlash(s)[1..]
  {
    assert ([c] + s)[1..] == s;
  }

  // ----- _native_markdown_journal_candidates -----

  /** The ids of the accepted journal links, in order, with repetitions. */
  function AcceptedIds(hrefs: seq<string>): seq<string> {
    if hrefs == [] then []
    else
      var rest := AcceptedIds(hrefs[1..]);
      if PREFIX <= hrefs[0] && JournalId(hrefs[0]).Some? then [JournalId(hrefs[0]).value] + rest else rest
  }

  predicate RejectedLink(href: string) {
    PREFIX <= href && JournalId(href).None?
  }

  predicate AnyRejected(hrefs: seq<string>) {
    exists href <- hrefs :: RejectedLink(href)
  }

  /** The first occurrence of each id, in order. */
  function Distinct(ids: seq<string>): (distinct: seq<string>) {
    if ids == [] then []
    else
      var before := Distinct(ids[..|ids| - 1]);
      if ids[|ids| - 1] in before then before else before + [ids[|ids| - 1]]
  }

  function Take(ids: seq<string>, n: nat): seq<string> {
    if |ids| <= n then ids else ids[..n]
  }

  lemma {:induction false} AcceptedIdsAppend(hrefs: seq<string>, href: string)
    ensures AcceptedIds(hrefs + [href]) ==
              AcceptedIds(hrefs) + if PREFIX <= href && JournalId(href).Some? then [JournalId(href).value] else []
  {
    if hrefs == [] {
      assert hrefs + [href] == [href];
      assert AcceptedIds([href][1..]) == [];
    } else {
      assert (hrefs + [href])[1..] == hrefs[1..] + [href];
      AcceptedIdsAppend(hrefs[1..], href);
    }
  }

  lemma AnyRejectedAppend(hrefs: seq<string>, href: string)
    ensures AnyRejected(hrefs + [href]) <==> AnyRejected(hrefs) || RejectedLink(href)
  {
    assert forall h :: h in hrefs + [href] <==> h in hrefs || h == href;
  }

  method JournalCandidates(hrefs: seq<string>) returns (candidates: seq<string>, rejected: bool)
    ensures candidates == Take(Distinct(AcceptedIds(hrefs)), MAX_CANDIDATES)
    ensures rejected <==> AnyRejected(hrefs) || |Distinct(AcceptedIds(hrefs))| > MAX_CANDIDATES
  {
    candidates := [];
    var seen: set<string> := {};
    rejected := false;
    ghost var distinct: seq<string> := [];
    for i := 0 to |hrefs|
      invariant distinct == Distinct(AcceptedIds(hrefs[..i]))
      invariant candidates == Take(distinct, MAX_CANDIDATES)
      invariant forall id :: id in seen <==> id in distinct
      invariant rejected <==> AnyRejected(hrefs[..i]) || |distinct| > MAX_CANDIDATES
    {
      var href := hrefs[i];
      assert hrefs[..i + 1] == hrefs[..i] + [href];
      AcceptedIdsAppend(hrefs[..i], href);
      AnyRejectedAppend(hrefs[..i], href);
      assert AcceptedIds(hrefs[..i]) + [] == AcceptedIds(hrefs[..i]);
      if !(PREFIX <= href) {
        continue;
      }
      var id := JournalId(href);
      if id.None? {
        rejected := true;
        continue;
      }
      ghost var ids := AcceptedIds(hrefs[..i]) + [id.value];
      assert ids[..|ids| - 1] == AcceptedIds(hrefs[..i]);
      if id.value in seen {
        continue;
      }
      seen := seen + {id.value};
      distinct := distinct + [id.value];
      if |candidates| >= MAX_CANDIDATES {
        rejected := true;
        continue;
      }
      candidates := candidates + [id.value];
    }
    assert hrefs[..|hrefs|] == hrefs;
  }

  /** First occurrences only: no id twice, and exactly the accepted ones. */
  lemma {:induction false} DistinctIsASet(ids: seq<string>)
    ensures forall i, j | 0 <= i < j < |Distinct(ids)| :: Distinct(ids)[i] != Distinct(ids)[j]
    ensures forall id :: id in Distinct(ids) <==> id in ids
  {
    if ids != [] {
      DistinctIsASet(ids[..|ids| - 1]);
      assert ids == ids[..|ids| - 1] + [ids[|ids| - 1]];
    }
  }

  // ----- _canonical_evidence_from_journal_payload -----

  /** A decimal text of zero: no other digit before the exponent. */
  predicate IsZero(numeral: string) {
    numeral == "" || numeral[0] == 'e' || (!('1' <= numeral[0] <= '9') && IsZero(numeral[1..]))
  }

  /** Python truth of a JSON value. */
  predicate Truthy(j: Json) {
    match j
    case Null => false
    case Bool(flag) => flag
    case Int(number) => number != 0
    case Dec(numeral) => !IsZero(numeral)
    case Str(text) => text != ""
    case Arr(items) => items != []
    case Obj(fields) => fields != []
  }

  /** `data.get(key) or metadata.get(key)`. */
  function Either(data: seq<Field>, metadata: seq<Field>, key: string): Option<Json> {
    if Get(data, key).Some? && Truthy(Get(data, key).value) then Get(data, key) else Get(metadata, key)
  }

  function StripLeft(s: string): string {
    if s != "" && BackendSse.IsSpace(s[0]) then StripLeft(s[1..]) else s
  }

  function StripRight(s: string): string {
    if s != "" && BackendSse.IsSpace(s[|s| - 1]) then StripRight(s[..|s| - 1]) else s
  }

  function Strip(s: string): string {
    StripRight(StripLeft(s))
  }

  function RelPath(id: string): string {
    "Journals/" + id + ".md"
  }

  function EvidenceItem(id: string, title: string, date: string): Json {
    Obj([Field("id", Str(id)), Field("rel_path", Str(RelPath(id))), Field("title", Str(title)), Field("date", Str(date))])
  }

  function CanonicalEvidence(payload: Json, id: string): Option<Json> {
    if !payload.Obj? then None
    else if Get(payload.fields, "success") != Some(Bool(true)) then None
    else if Get(payload.fields, "schema_version") != Some(Str("m16.journal.v0")) then None
    else
      match Get(payload.fields, "data")
      case Some(Obj(data)) =>
        if Get(data, "rel_path") != Some(Str(RelPath(id))) then None
        else
          var metadata := match Get(data, "metadata") { case Some(Obj(fields)) => fields case _ => [] };
          (match (Either(data, metadata, "title"), Either(data, metadata, "date"))
           case (Some(Str(title)), Some(Str(date))) =>
             if Strip(title) == "" || Strip(date) == "" then None else Some(EvidenceItem(id, Strip(title), Strip(date)))
           case _ => None)
      case _ => None
  }

  // ----- _verify_native_markdown_evidence -----

  /** One CLI read of a journal: its JSON, or nothing when it raises. */
  type Reader = string -> Option<Json>

  function Verified(id: string, read: Reader): Option<Json> {
    match read(id)
    case None => None
    case Some(payload) => CanonicalEvidence(payload, id)
  }

  /** The results of the ids that have one, in order. */
  function Collect<T>(ids: seq<string>, f: string -> Option<T>): seq<T> {
    if ids == [] then []
    else
      var before := Collect(ids[..|ids| - 1], f);
      match f(ids[|ids| - 1])
      case None => before
      case Some(item) => before + [item]
  }

  function Verifier(read: Reader): string -> Option<Json> {
    id => Verified(id, read)
  }

  function EvidenceOf(ids: seq<string>, read: Reader): seq<Json> {
    Collect(ids, Verifier(read))
  }

  method ReadEvidence(candidates: seq<string>, read: Reader) returns (evidence: seq<Json>, rejected: bool)
    ensures evidence == EvidenceOf(candidates, read)
    ensures rejected <==> exists id <- candidates :: Verified(id, read).None?
  {
    evidence := [];
    rejected := false;
    for i := 0 to |candidates|
      invariant evidence == EvidenceOf(candidates[..i], read)
      invariant rejected <==> exists id <- candidates[..i] :: Verified(id, read).None?
    {
      var id := candidates[i];
      assert candidates[..i + 1][..i] == candidates[..i];
      assert forall c :: c in candidates[..i + 1] <==> c in candidates[..i] || c == id;
      var payload := read(id);
      var canonical := if payload.None? then None else CanonicalEvidence(payload.value, id);
      if canonical.None? {
        rejected := true;
      } else {
        evidence := evidence + [canonical.value];
      }
    }
    assert candidates[..|candidates|] == candidates;
  }

  datatype Grade = Grade(mode: string, reason: string, gap: Json)

  function GradeFor(evidence: seq<Json>, rejected: bool): Grade {
    if evidence != [] && !rejected then
      Grade("GROUNDED", "all-native-markdown-journal-citations-verified", Null)
    else if evidence != [] then
      Grade("PARTIAL", "some-native-markdown-journal-citations-rejected",
            Str("Some journal citations could not be independently verified."))
    else
      Grade("UNGROUNDED", "native-markdown-no-verified-journal-evidence",
            Str("No journal citations were independently verified."))
  }

  /** The payload with its answer relabelled: other keys stay as they are. */
  function Relabel(fields: seq<Field>, answer: seq<Field>, grade: Grade, evidence: seq<Json>): seq<Field> {
    var top := Put(Put(Put(Put(Remove(fields, "answer_origin"), "mode", Str(grade.mode)), "reason", Str(grade.reason)),
                       "evidence", Arr(evidence)), "tool_trace", Arr([]));
    Put(top, "answer", Obj(RelabelAnswer(answer, grade)))
  }

  function RelabelAnswer(answer: seq<Field>, grade: Grade): seq<Field> {
    Put(Put(Put(answer, "mode", Str(grade.mode)), "reason", Str(grade.reason)), "gap", grade.gap)
  }

  /** The answer's fields, when it is an object with a text summary. */
  function AnswerOf(fields: seq<Field>): Option<seq<Field>> {
    match Get(fields, "answer")
    case Some(Obj(answer)) => if Get(answer, "summary").Some? && Get(answer, "summary").value.Str? then Some(answer) else None
    case _ => None
  }

  /** All candidates verified and all journal links accepted, within the candidate limit. */
  predicate AllLinksEarned(hrefs: seq<string>, read: Reader) {
    && !AnyRejected(hrefs)
    && 1 <= |Distinct(AcceptedIds(hrefs))| <= MAX_CANDIDATES
    && forall id <- Distinct(AcceptedIds(hrefs)) :: Verified(id, read).Some?
  }

  function Candidates(hrefs: seq<string>): seq<string> {
    Take(Distinct(AcceptedIds(hrefs)), MAX_CANDIDATES)
  }

  predicate Rejected(hrefs: seq<string>, read: Reader) {
    || AnyRejected(hrefs) || |Distinct(AcceptedIds(hrefs))| > MAX_CANDIDATES
    || exists id <- Candidates(hrefs) :: Verified(id, read).None?
  }

  /** `links` extracts the link targets of a summary, in order. */
  function VerifyFields(fields: seq<Field>, links: string -> seq<string>, read: Reader): seq<Field> {
    match AnswerOf(fields)
    case None => fields
    case Some(answer) =>
      var hrefs := links(Get(answer, "summary").value.text);
      var evidence := EvidenceOf(Candidates(hrefs), read);
      Relabel(fields, answer, GradeFor(evidence, Rejected(hrefs, read)), evidence)
  }

  method VerifyNativeMarkdownEvidence(fields: seq<Field>, links: string -> seq<string>, read: Reader) returns (out: seq<Field>)
    ensures out == VerifyFields(fields, links, read)
  {
    hide Relabel, GradeFor, AnyRejected, AcceptedIds, Distinct, EvidenceOf, Verified;
    var answer := AnswerOf(fields);
    if answer.None? {
      return fields;
    }
    var hrefs := links(Get(answer.value, "summary").value.text);
    var candidates, rejected := JournalCandidates(hrefs);
    var evidence, unread := ReadEvidence(candidates, read);
    rejected := rejected || unread;
    out := Relabel(fields, answer.value, GradeFor(evidence, rejected), evidence);
  }

  // ----- What the label means -----

  lemma {:induction false} CollectAll<T>(ids: seq<string>, f: string -> Option<T>)
    requires forall id <- ids :: f(id).Some?
    ensures |Collect(ids, f)| == |ids|
    ensures forall k | 0 <= k < |ids| :: Some(Collect(ids, f)[k]) == f(ids[k])
  {
    if ids != [] {
      CollectAll(ids[..|ids| - 1], f);
    }
  }

  lemma {:induction false} CollectSome<T>(ids: seq<string>, f: string -> Option<T>)
    ensures forall item <- Collect(ids, f) :: exists id <- ids :: f(id) == Some(item)
    ensures Collect(ids, f) == [] <==> forall id <- ids :: f(id).None?
  {
    if ids != [] {
      CollectSome(ids[..|ids| - 1], f);
      assert ids == ids[..|ids| - 1] + [ids[|ids| - 1]];
    }
  }

  lemma GetOfFour(a: Field, b: Field, c: Field, d: Field, key: string)
    ensures Get([a, b, c, d], key) ==
              if a.key == key then Some(a.value) else if b.key == key then Some(b.value)
              else if c.key == key then Some(c.value) else if d.key == key then Some(d.value) else None
  {
    assert [a, b, c, d] == [a] + ([b] + ([c] + ([d] + [])));
    GetCons(a, [b] + ([c] + ([d] + [])), key);
    GetCons(b, [c] + ([d] + []), key);
    GetCons(c, [d] + [], key);
    GetCons(d, [], key);
  }

  lemma ItemFields(id: string, title: string, date: string, key: string)
    ensures Get(EvidenceItem(id, title, date).fields, key) ==
              if key == "id" then Some(Str(id)) else if key == "rel_path" then Some(Str(RelPath(id)))
              else if key == "title" then Some(Str(title)) else if key == "date" then Some(Str(date)) else None
  {
    GetOfFour(Field("id", Str(id)), Field("rel_path", Str(RelPath(id))), Field("title", Str(title)),
              Field("date", Str(date)), key);
  }

  lemma ItemIsEvidence(id: string, title: string, date: string)
    requires id != "" && title != "" && date != ""
    ensures IsEvidenceItem(EvidenceItem(id, title, date))
    ensures Get(EvidenceItem(id, title, date).fields, "id") == Some(Str(id))
  {
    assert |"id"| == 2 && |"rel_path"| == 8 && |"title"| == 5 && |"date"| == 4;
    ItemFields(id, title, date, "id");
    ItemFields(id, title, date, "rel_path");
    ItemFields(id, title, date, "title");
    ItemFields(id, title, date, "date");
    assert |RelPath(id)| > 0;
  }

  lemma VerifiedShape(id: string, read: Reader)
    requires Verified(id, read).Some?
    ensures exists title, date :: title != "" && date != "" && Verified(id, read) == Some(EvidenceItem(id, title, date))
  {
  }

  /** An id's evidence is its own: canonical id and path, nonempty title and date. */
  lemma VerifiedIsEvidence(id: string, read: Reader)
    requires id != "" && Verified(id, read).Some?
    ensures IsEvidenceItem(Verified(id, read).value)
    ensures Get(Verified(id, read).value.fields, "id") == Some(Str(id))
  {
    VerifiedShape(id, read);
    var title, date :| title != "" && date != "" && Verified(id, read) == Some(EvidenceItem(id, title, date));
    ItemIsEvidence(id, title, date);
  }

  /** Relabelling sets five keys, drops one and keeps every other. */
  lemma RelabelGet(fields: seq<Field>, answer: seq<Field>, grade: Grade, evidence: seq<Json>, key: string)
    ensures Get(Relabel(fields, answer, grade, evidence), key) ==
              if key == "answer" then Some(Obj(RelabelAnswer(answer, grade)))
              else if key == "tool_trace" then Some(Arr([]))
              else if key == "evidence" then Some(Arr(evidence))
              else if key == "reason" then Some(Str(grade.reason))
              else if key == "mode" then Some(Str(grade.mode))
              else if key == "answer_origin" then None
              else Get(fields, key)
  {
    var f0 := Remove(fields, "answer_origin");
    var f1 := Put(f0, "mode", Str(grade.mode));
    var f2 := Put(f1, "reason", Str(grade.reason));
    var f3 := Put(f2, "evidence", Arr(evidence));
    var f4 := Put(f3, "tool_trace", Arr([]));
    GetAfterRemove(fields, "answer_origin", key);
    GetAfterPut(f0, "mode", Str(grade.mode), key);
    GetAfterPut(f1, "reason", Str(grade.reason), key);
    GetAfterPut(f2, "evidence", Arr(evidence), key);
    GetAfterPut(f3, "tool_trace", Arr([]), key);
    GetAfterPut(f4, "answer", Obj(RelabelAnswer(answer, grade)), key);
  }

  lemma RelabelAnswerGet(answer: seq<Field>, grade: Grade, key: string)
    ensures Get(RelabelAnswer(answer, grade), key) ==
              if key == "gap" then Some(grade.gap)
              else if key == "reason" then Some(Str(grade.reason))
              else if key == "mode" then Some(Str(grade.mode))
              else Get(answer, key)
  {
    var f1 := Put(answer, "mode", Str(grade.mode));
    var f2 := Put(f1, "reason", Str(grade.reason));
    GetAfterPut(answer, "mode", Str(grade.mode), key);
    GetAfterPut(f1, "reason", Str(grade.reason), key);
    GetAfterPut(f2, "gap", grade.gap, key);
  }

  lemma GradeIsGrounded(hrefs: seq<string>, read: Reader)
    ensures EvidenceOf(Candidates(hrefs), read) != [] && !Rejected(hrefs, read) <==> AllLinksEarned(hrefs, read)
    ensures AllLinksEarned(hrefs, read) ==> Candidates(hrefs) == Distinct(AcceptedIds(hrefs))
  {
    CollectSome(Candidates(hrefs), Verifier(read));
    assert forall id :: Verifier(read)(id) == Verified(id, read);
    if AllLinksEarned(hrefs, read) {
      var first := Distinct(AcceptedIds(hrefs))[0];
      assert first in Candidates(hrefs) && Verified(first, read).Some?;
    }
  }

  /** GROUNDED is earned: the relabelled answer is GROUNDED exactly when every `/journal` link is
      accepted, they name 1 to 20 distinct journals, and each was verified by its own read; its
      evidence is then those journals' own, in the order of their first links. It is UNGROUNDED
      exactly when no candidate verified. */
  lemma GroundedIsEarned(fields: seq<Field>, links: string -> seq<string>, read: Reader)
    requires AnswerOf(fields).Some?
    ensures var hrefs := links(Get(AnswerOf(fields).value, "summary").value.text);
            var out := VerifyFields(fields, links, read);
            && (Get(out, "mode") == Some(Str("GROUNDED")) <==> AllLinksEarned(hrefs, read))
            && (Get(out, "mode") == Some(Str("UNGROUNDED")) <==> forall id <- Candidates(hrefs) :: Verified(id, read).None?)
            && Get(out, "evidence") == Some(Arr(EvidenceOf(Candidates(hrefs), read)))
    ensures var hrefs := links(Get(AnswerOf(fields).value, "summary").value.text);
            AllLinksEarned(hrefs, read) ==>
              var ids, evidence := Distinct(AcceptedIds(hrefs)), EvidenceOf(Candidates(hrefs), read);
              |evidence| == |ids| && forall k | 0 <= k < |ids| :: Some(evidence[k]) == Verified(ids[k], read)
  {
    var answer := AnswerOf(fields).value;
    var hrefs := links(Get(answer, "summary").value.text);
    var evidence := EvidenceOf(Candidates(hrefs), read);
    var grade := GradeFor(evidence, Rejected(hrefs, read));
    GradeIsGrounded(hrefs, read);
    CollectSome(Candidates(hrefs), Verifier(read));
    assert forall id :: Verifier(read)(id) == Verified(id, read);
    RelabelGet(fields, answer, grade, evidence, "mode");
    RelabelGet(fields, answer, grade, evidence, "evidence");
    GradeModes(evidence, Rejected(hrefs, read));
    if AllLinksEarned(hrefs, read) {
      CollectAll(Candidates(hrefs), Verifier(read));
    }
  }

  // ----- Links without a newline -----

  predicate CanonicalRoute(href: string) {
    "/journal/" <= href && CanonicalId(href[|"/journal/"|..])
  }

  predicate NoNewline(hrefs: seq<string>) {
    forall href <- hrefs :: '\n' !in href
  }

  lemma RouteIff(href: string)
    requires '\n' !in href
    ensures CanonicalRoute(href) <==> JournalId(href).Some?
    ensures CanonicalRoute(href) ==> PREFIX <= href && JournalId(href) == Some(href[|"/journal/"|..])
  {
    if "/journal/" <= href {
      var id := href[|"/journal/"|..];
      assert href == "/journal/" + id;
      JournalIdWithoutNewline(href, id);
      assert PREFIX <= "/journal/" <= href;
    }
  }

  /** Among links without a newline, refused means not canonical, and the accepted ids are the
      canonical ids that some link routes to. */
  lemma {:induction false} AcceptedIdsAreCanonical(hrefs: seq<string>)
    requires NoNewline(hrefs)
    ensures !AnyRejected(hrefs) <==> forall href <- hrefs :: PREFIX <= href ==> CanonicalRoute(href)
    ensures forall id :: id in AcceptedIds(hrefs) <==> CanonicalId(id) && "/journal/" + id in hrefs
  {
    if hrefs != [] {
      var href, rest := hrefs[0], hrefs[1..];
      AcceptedIdsAreCanonical(rest);
      RouteIff(href);
      assert hrefs == [href] + rest;
      forall id: string
        ensures CanonicalId(id) && href == "/journal/" + id <==> CanonicalRoute(href) && id == href[|"/journal/"|..]
      {
        assert ("/journal/" + id)[|"/journal/"|..] == id;
        assert "/journal/" <= href ==> href == "/journal/" + href[|"/journal/"|..];
      }
      hide CanonicalId, JournalId;
      RejectedFirst(href, rest);
    }
  }

  lemma RejectedFirst(href: string, rest: seq<string>)
    ensures AnyRejected([href] + rest) <==> RejectedLink(href) || AnyRejected(rest)
  {
    assert forall h :: h in [href] + rest <==> h == href || h in rest;
  }

  /** The link pattern admits no newline. Then GROUNDED means: every `/journal` link is the
      canonical route of a canonical id, and the evidence items carry exactly the 1 to 20
      distinct ids so routed to, each verified by its own read. */
  lemma GroundedIsCanonical(fields: seq<Field>, links: string -> seq<string>, read: Reader)
    requires AnswerOf(fields).Some?
    requires NoNewline(links(Get(AnswerOf(fields).value, "summary").value.text))
    ensures var hrefs := links(Get(AnswerOf(fields).value, "summary").value.text);
            var ids, evidence := Distinct(AcceptedIds(hrefs)), EvidenceOf(Candidates(hrefs), read);
            && (forall id :: id in ids <==> CanonicalId(id) && "/journal/" + id in hrefs)
            && (Get(VerifyFields(fields, links, read), "mode") == Some(Str("GROUNDED")) <==>
                 && (forall href <- hrefs :: PREFIX <= href ==> CanonicalRoute(href))
                 && 1 <= |ids| <= MAX_CANDIDATES && forall id <- ids :: Verified(id, read).Some?)
            && (Get(VerifyFields(fields, links, read), "mode") == Some(Str("GROUNDED")) ==>
                 |evidence| == |ids| && forall k | 0 <= k < |ids| :: IsItemOf(evidence[k], ids[k]))
  {
    var hrefs := links(Get(AnswerOf(fields).value, "summary").value.text);
    var ids, evidence := Distinct(AcceptedIds(hrefs)), EvidenceOf(Candidates(hrefs), read);
    GroundedIsEarned(fields, links, read);
    AcceptedIdsAreCanonical(hrefs);
    DistinctIsASet(AcceptedIds(hrefs));
    hide VerifyFields, AcceptedIds, Distinct, EvidenceOf, CanonicalId, CanonicalRoute, Verified;
    if AllLinksEarned(hrefs, read) {
      forall k | 0 <= k < |ids|
        ensures IsItemOf(evidence[k], ids[k])
      {
        assert ids[k] in ids && ids[k] in AcceptedIds(hrefs) && CanonicalId(ids[k]);
        CanonicalIdIsText(ids[k]);
        VerifiedIsEvidence(ids[k], read);
      }
    }
  }

  /** The evidence of one journal: a valid item that carries this id. */
  predicate IsItemOf(item: Json, id: string) {
    IsEvidenceItem(item) && Get(item.fields, "id") == Some(Str(id))
  }

  lemma CanonicalIdIsText(id: string)
    requires CanonicalId(id)
    ensures id != ""
  {
  }

  lemma GradeModes(evidence: seq<Json>, rejected: bool)
    ensures GradeFor(evidence, rejected).mode == "GROUNDED" <==> evidence != [] && !rejected
    ensures GradeFor(evidence, rejected).mode == "UNGROUNDED" <==> evidence == []
    ensures IsMode(Str(GradeFor(evidence, rejected).mode)) && IsTextOrNull(GradeFor(evidence, rejected).gap)
  {
    assert |"GROUNDED"| == 8 && |"PARTIAL"| == 7 && |"UNGROUNDED"| == 10;
  }

  lemma {:induction false} AcceptedIdsAreIds(hrefs: seq<string>)
    ensures forall id <- AcceptedIds(hrefs) :: id != ""
  {
    if hrefs != [] {
      AcceptedIdsAreIds(hrefs[1..]);
    }
  }

  lemma CandidatesAreIds(hrefs: seq<string>, id: string)
    requires id in Candidates(hrefs)
    ensures id != ""
  {
    AcceptedIdsAreIds(hrefs);
    DistinctIsASet(AcceptedIds(hrefs));
    assert id in Distinct(AcceptedIds(hrefs));
  }

  lemma EvidenceIsValid(hrefs: seq<string>, read: Reader)
    ensures IsEvidenceList(Arr(EvidenceOf(Candidates(hrefs), read)))
  {
    var ids, f := Candidates(hrefs), Verifier(read);
    CollectSome(ids, f);
    forall item <- Collect(ids, f)
      ensures IsEvidenceItem(item)
    {
      var id :| id in ids && f(id) == Some(item);
      CandidatesAreIds(hrefs, id);
      OneItemIsValid(id, read, item);
    }
  }

  lemma OneItemIsValid(id: string, read: Reader, item: Json)
    requires id != "" && Verifier(read)(id) == Some(item)
    ensures IsEvidenceItem(item)
  {
    VerifiedIsEvidence(id, read);
  }

  /** Relabelling keeps a valid envelope valid: mode and evidence always fit. */
  lemma VerifiedStaysValid(fields: seq<Field>, links: string -> seq<string>, read: Reader)
    requires ValidFields(fields)
    ensures ValidFields(VerifyFields(fields, links, read))
  {
    var answer := AnswerOf(fields).value;
    var hrefs := links(Get(answer, "summary").value.text);
    var evidence := EvidenceOf(Candidates(hrefs), read);
    var grade := GradeFor(evidence, Rejected(hrefs, read));
    EvidenceIsValid(hrefs, read);
    GradeModes(evidence, Rejected(hrefs, read));
    AnswerStaysValid(answer, grade);
    EnvelopeStaysValid(fields, answer, grade, evidence);
  }

  lemma AnswerStaysValid(answer: seq<Field>, grade: Grade)
    requires IsAnswer(Obj(answer)) && IsMode(Str(grade.mode)) && IsTextOrNull(grade.gap)
    ensures IsAnswer(Obj(RelabelAnswer(answer, grade)))
  {
    RelabelAnswerGet(answer, grade, "mode");
    RelabelAnswerGet(answer, grade, "reason");
    RelabelAnswerGet(answer, grade, "summary");
    RelabelAnswerGet(answer, grade, "insights");
    RelabelAnswerGet(answer, grade, "gap");
    RelabelAnswerGet(answer, grade, "suggestions");
  }

  predicate KeptKey(key: string) {
    key != "answer" && key != "tool_trace" && key != "evidence" && key != "reason" && key != "mode" && key != "answer_origin"
  }

  lemma KeptKeys()
    ensures KeptKey("schema_version") && KeptKey("request_id") && KeptKey("conversation_id")
    ensures KeptKey("source") && KeptKey("query")
  {
    assert |"schema_version"| == 14 && |"conversation_id"| == 15 && |"query"| == 5;
    assert "request_id"[0] == 'r' && "tool_trace"[0] == 't';
    assert "source"[0] == 's' && "reason"[0] == 'r' && "answer"[0] == 'a';
    assert |"answer"| == 6 && |"tool_trace"| == 10 && |"evidence"| == 8 && |"reason"| == 6;
    assert |"mode"| == 4 && |"answer_origin"| == 13;
  }

  lemma ChangedKeys()
    ensures "answer" != "reason" && "answer" != "mode" && "answer" != "evidence" && "answer" != "tool_trace"
    ensures "tool_trace" != "evidence" && "tool_trace" != "reason" && "tool_trace" != "mode"
    ensures "evidence" != "reason" && "evidence" != "mode" && "reason" != "mode"
  {
    assert "answer"[0] == 'a' && "reason"[0] == 'r';
    assert |"answer"| == 6 && |"tool_trace"| == 10 && |"evidence"| == 8 && |"reason"| == 6 && |"mode"| == 4;
  }

  lemma KeptStaysValid(fields: seq<Field>, answer: seq<Field>, grade: Grade, evidence: seq<Json>, key: string)
    requires KeptKey(key)
    ensures Get(Relabel(fields, answer, grade, evidence), key) == Get(fields, key)
  {
    RelabelGet(fields, answer, grade, evidence, key);
  }

  lemma EnvelopeStaysValid(fields: seq<Field>, answer: seq<Field>, grade: Grade, evidence: seq<Json>)
    requires ValidFields(fields) && IsAnswer(Obj(RelabelAnswer(answer, grade)))
    requires IsMode(Str(grade.mode)) && IsEvidenceList(Arr(evidence))
    requires grade.mode == "GROUNDED" ==> evidence != []
    requires grade.mode == "UNGROUNDED" ==> evidence == []
    ensures ValidFields(Relabel(fields, answer, grade, evidence))
  {
    KeptKeys();
    KeptStaysValid(fields, answer, grade, evidence, "schema_version");
    KeptStaysValid(fields, answer, grade, evidence, "request_id");
    KeptStaysValid(fields, answer, grade, evidence, "conversation_id");
    KeptStaysValid(fields, answer, grade, evidence, "source");
    KeptStaysValid(fields, answer, grade, evidence, "query");
    ChangedStaysValid(fields, answer, grade, evidence);
  }

  lemma ChangedStaysValid(fields: seq<Field>, answer: seq<Field>, grade: Grade, evidence: seq<Json>)
    requires IsAnswer(Obj(RelabelAnswer(answer, grade)))
    requires IsMode(Str(grade.mode)) && IsEvidenceList(Arr(evidence))
    requires grade.mode == "GROUNDED" ==> evidence != []
    requires grade.mode == "UNGROUNDED" ==> evidence == []
    ensures var out := Relabel(fields, answer, grade, evidence);
            && Requires(out, "mode", IsMode) && Allows(out, "reason", IsTextOrNull)
            && Requires(out, "answer", IsAnswer) && Requires(out, "evidence", IsEvidenceList)
            && Allows(out, "tool_trace", IsObjectList) && ModeFitsEvidence(out)
  {
    ChangedKeys();
    RelabelGet(fields, answer, grade, evidence, "mode");
    RelabelGet(fields, answer, grade, evidence, "reason");
    RelabelGet(fields, answer, grade, evidence, "answer");
    RelabelGet(fields, answer, grade, evidence, "evidence");
    RelabelGet(fields, answer, grade, evidence, "tool_trace");
    AnswerMode(answer, grade);
  }

  lemma AnswerMode(answer: seq<Field>, grade: Grade)
    ensures Get(RelabelAnswer(answer, grade), "mode") == Some(Str(grade.mode))
  {
    assert |"gap"| == 3 && |"mode"| == 4 && |"reason"| == 6;
    RelabelAnswerGet(answer, grade, "mode");
  }
}
