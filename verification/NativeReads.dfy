/** When a journal read verifies and what its evidence says, in which order candidates come, and
    what the label of a relabelled answer says. */
module NativeReads {
  import opened Wrappers
  import opened JsonValues
  import opened NativeEvidence
  import BackendSse

  // ----- str.strip -----

  /** `t` is what is left of `s` without the spaces at either end. */
  ghost predicate Stripped(s: string, t: string) {
    exists i, j | 0 <= i <= j <= |s| :: StrippedAt(s, t, i, j)
  }

  ghost predicate StrippedAt(s: string, t: string, i: int, j: int)
    requires 0 <= i <= j <= |s|
  {
    && t == s[i..j]
    && (forall k | 0 <= k < i :: BackendSse.IsSpace(s[k])) && (forall k | j <= k < |s| :: BackendSse.IsSpace(s[k]))
    && (t != "" ==> !BackendSse.IsSpace(t[0]) && !BackendSse.IsSpace(t[|t| - 1]))
  }

  lemma {:induction false} LeftIsStripped(s: string) returns (i: nat)
    ensures i <= |s| && StripLeft(s) == s[i..] && forall k | 0 <= k < i :: BackendSse.IsSpace(s[k])
    ensures StripLeft(s) != "" ==> !BackendSse.IsSpace(StripLeft(s)[0])
  {
    i := 0;
    if s != "" && BackendSse.IsSpace(s[0]) {
      var rest := LeftIsStripped(s[1..]);
      i := rest + 1;
      assert forall k | 1 <= k < i :: s[k] == s[1..][k - 1];
    }
  }

  lemma {:induction false} RightIsStripped(s: string) returns (j: nat)
    ensures j <= |s| && StripRight(s) == s[..j] && forall k | j <= k < |s| :: BackendSse.IsSpace(s[k])
    ensures StripRight(s) != "" ==> !BackendSse.IsSpace(StripRight(s)[|StripRight(s)| - 1])
    decreases |s|
  {
    j := |s|;
    if s != "" && BackendSse.IsSpace(s[|s| - 1]) {
      j := RightIsStripped(s[..|s| - 1]);
      assert s[..|s| - 1][..j] == s[..j];
    }
  }

  lemma StripStrips(s: string)
    ensures Stripped(s, Strip(s))
  {
    var i := LeftIsStripped(s);
    var left := StripLeft(s);
    var j := RightIsStripped(left);
    assert Strip(s) == s[i..][..j] == s[i..i + j];
    assert forall k | i + j <= k < |s| :: s[k] == left[k - i];
    assert StrippedAt(s, Strip(s), i, i + j);
  }

  // ----- Truth -----

  /** Python's false values; a decimal is false if no digit before its exponent is. */
  lemma FalsyIff(j: Json)
    ensures !Truthy(j) <==>
              j == Null || j == Bool(false) || j == Int(0) || j == Str("") || j == Arr([]) || j == Obj([])
              || (j.Dec? && forall k | 0 <= k < |j.numeral| && '1' <= j.numeral[k] <= '9' :: 'e' in j.numeral[..k])
  {
    if j.Dec? {
      ZeroIff(j.numeral);
    }
  }

  lemma {:induction false} ZeroIff(numeral: string)
    ensures IsZero(numeral) <==> forall k | 0 <= k < |numeral| && '1' <= numeral[k] <= '9' :: 'e' in numeral[..k]
  {
    if numeral != "" {
      var rest := numeral[1..];
      ZeroIff(rest);
      assert forall k | 1 <= k < |numeral| :: numeral[k] == rest[k - 1] && numeral[..k] == [numeral[0]] + rest[..k - 1];
      forall k | 0 <= k < |rest|
        ensures rest[k] == numeral[k + 1] && numeral[..k + 1] == [numeral[0]] + rest[..k]
      {
      }
    }
  }

  // ----- When a read verifies -----

  /** The value under the key: the data's own if it counts as true, else the metadata's. */
  function Chosen(data: seq<Field>, key: string): Option<Json> {
    match Get(data, key)
    case Some(own) => if Truthy(own) then Some(own) else InMetadata(data, key)
    case None => InMetadata(data, key)
  }

  function InMetadata(data: seq<Field>, key: string): Option<Json> {
    match Get(data, "metadata")
    case Some(Obj(metadata)) => Get(metadata, key)
    case _ => None
  }

  /** The read succeeded, in the known version, for this very journal. */
  predicate ReadOf(payload: Json, id: string, data: seq<Field>) {
    && payload.Obj? && Get(payload.fields, "success") == Some(Bool(true))
    && Get(payload.fields, "schema_version") == Some(Str("m16.journal.v0"))
    && Get(payload.fields, "data") == Some(Obj(data))
    && Get(data, "rel_path") == Some(Str("Journals/" + id + ".md"))
  }

  /** A text that is not all spaces. */
  predicate Says(value: Option<Json>, text: string) {
    value == Some(Str(text)) && exists k | 0 <= k < |text| :: !BackendSse.IsSpace(text[k])
  }

  ghost predicate Describes(payload: Json, id: string, data: seq<Field>, title: string, date: string) {
    ReadOf(payload, id, data) && Says(Chosen(data, "title"), title) && Says(Chosen(data, "date"), date)
  }

  lemma BlankIff(text: string)
    ensures Strip(text) == "" <==> forall k | 0 <= k < |text| :: BackendSse.IsSpace(text[k])
  {
    StripStrips(text);
    var i, j :| 0 <= i <= j <= |text| && StrippedAt(text, Strip(text), i, j);
    if Strip(text) != "" {
      assert Strip(text)[0] == text[i];
    }
  }

  lemma EitherIsChosen(data: seq<Field>, key: string)
    ensures Either(data, match Get(data, "metadata") { case Some(Obj(fields)) => fields case _ => [] }, key) == Chosen(data, key)
  {
  }

  /** A read verifies if and only if it is of this journal and names a title and a date; the item
      then has exactly the id, the path, the title and the date, stripped, each under its key. */
  lemma VerifiedIff(id: string, read: Reader, item: Json)
    ensures Verified(id, read) == Some(item) <==>
              && read(id).Some?
              && exists data, title, date ::
                   && Describes(read(id).value, id, data, title, date)
                   && item == Obj([Field("id", Str(id)), Field("rel_path", Str("Journals/" + id + ".md")),
                                   Field("title", Str(Strip(title))), Field("date", Str(Strip(date)))])
  {
    hide Get, Strip, Truthy;
    if Verified(id, read).Some? && read(id).Some? {
      var payload := read(id).value;
      var data := Get(payload.fields, "data").value.fields;
      VerifiedParts(payload, id, data);
      var title, date := Chosen(data, "title").value.text, Chosen(data, "date").value.text;
      assert Describes(payload, id, data, title, date);
    }
    if read(id).Some? {
      forall data, title, date | Describes(read(id).value, id, data, title, date)
        ensures Verified(id, read) == Some(EvidenceItem(id, Strip(title), Strip(date)))
      {
        VerifiedParts(read(id).value, id, data);
      }
    }
  }

  lemma VerifiedParts(payload: Json, id: string, data: seq<Field>)
    requires payload.Obj? && Get(payload.fields, "data") == Some(Obj(data))
    ensures var title, date := Chosen(data, "title"), Chosen(data, "date");
            if ReadOf(payload, id, data) && title.Some? && title.value.Str? && date.Some? && date.value.Str?
               && Says(title, title.value.text) && Says(date, date.value.text) then
              CanonicalEvidence(payload, id) == Some(EvidenceItem(id, Strip(title.value.text), Strip(date.value.text)))
            else CanonicalEvidence(payload, id) == None
  {
    EitherIsChosen(data, "title");
    EitherIsChosen(data, "date");
    var title, date := Chosen(data, "title"), Chosen(data, "date");
    if title.Some? && title.value.Str? { BlankIff(title.value.text); }
    if date.Some? && date.value.Str? { BlankIff(date.value.text); }
    hide Get, Strip, Either, Chosen;
  }

  // ----- The order of candidates -----

  /** Some occurrence of `x` comes before every occurrence of `y`. */
  ghost predicate Precedes(ids: seq<string>, x: string, y: string) {
    exists a | 0 <= a < |ids| :: ids[a] == x && y !in ids[..a + 1]
  }

  lemma PrecedesMore(ids: seq<string>, last: string, x: string, y: string)
    ensures Precedes(ids, x, y) ==> Precedes(ids + [last], x, y)
    ensures x in ids && y !in ids ==> Precedes(ids + [last], x, y)
  {
    if a :| 0 <= a < |ids| && ids[a] == x && y !in ids[..a + 1] {
      assert (ids + [last])[a] == x && (ids + [last])[..a + 1] == ids[..a + 1];
    }
    if x in ids && y !in ids {
      var a :| 0 <= a < |ids| && ids[a] == x;
      assert (ids + [last])[a] == x && (ids + [last])[..a + 1] == ids[..a + 1];
    }
  }

  /** First occurrences, in their order. */
  lemma {:induction false} DistinctKeepsOrder(ids: seq<string>)
    ensures forall i, j | 0 <= i < j < |Distinct(ids)| :: Precedes(ids, Distinct(ids)[i], Distinct(ids)[j])
  {
    if ids != [] {
      var init, last := ids[..|ids| - 1], ids[|ids| - 1];
      DistinctKeepsOrder(init);
      DistinctIsASet(init);
      assert ids == init + [last];
      var before, after := Distinct(init), Distinct(ids);
      hide Precedes;
      forall i, j | 0 <= i < j < |after|
        ensures Precedes(ids, after[i], after[j])
      {
        assert after[i] == before[i] && before[i] in before;
        PrecedesMore(init, last, after[i], after[j]);
      }
    }
  }

  /** The first twenty of them. */
  lemma CandidatesAreFirst(hrefs: seq<string>)
    ensures Candidates(hrefs) <= Distinct(AcceptedIds(hrefs))
    ensures |Candidates(hrefs)| == if |Distinct(AcceptedIds(hrefs))| < 20 then |Distinct(AcceptedIds(hrefs))| else 20
  {
  }

  // ----- What the evidence is -----

  /** `at` lists exactly the verified ids, in order, and the items are theirs. */
  ghost predicate ItemsOf(ids: seq<string>, read: Reader, at: seq<int>, items: seq<Json>) {
    && |at| == |items| && (forall j, k | 0 <= j < k < |at| :: at[j] < at[k])
    && (forall k | 0 <= k < |at| :: 0 <= at[k] < |ids| && Verified(ids[at[k]], read) == Some(items[k]))
    && (forall i | 0 <= i < |ids| && Verified(ids[i], read).Some? :: i in at)
  }

  lemma ItemsMore(ids: seq<string>, read: Reader, at: seq<int>, items: seq<Json>, id: string)
    requires ItemsOf(ids, read, at, items)
    ensures match Verified(id, read)
            case None => ItemsOf(ids + [id], read, at, items)
            case Some(item) => ItemsOf(ids + [id], read, at + [|ids|], items + [item])
  {
    hide Verified;
    var longer, more := ids + [id], at + [|ids|];
    assert forall i | 0 <= i < |ids| :: longer[i] == ids[i];
    assert forall i :: i in more <==> i in at || i == |ids|;
  }

  /** One item for each id whose read verifies, in the order of the ids, whatever the others do. */
  lemma {:induction false} EvidenceIsOfTheVerified(ids: seq<string>, read: Reader) returns (at: seq<int>)
    ensures ItemsOf(ids, read, at, EvidenceOf(ids, read))
  {
    if ids == [] {
      at := [];
    } else {
      hide ItemsOf, Verified;
      var n := |ids| - 1;
      at := EvidenceIsOfTheVerified(ids[..n], read);
      assert Verifier(read)(ids[n]) == Verified(ids[n], read);
      ItemsMore(ids[..n], read, at, EvidenceOf(ids[..n], read), ids[n]);
      assert ids[..n] + [ids[n]] == ids;
      at := if Verified(ids[n], read).Some? then at + [n] else at;
    }
  }

  // ----- What the label says -----

  /** Mode, reason and gap, at the top and in the answer itself. */
  predicate Labelled(out: seq<Field>, mode: string, reason: string, gap: Json) {
    && Get(out, "mode") == Some(Str(mode)) && Get(out, "reason") == Some(Str(reason))
    && Get(out, "answer").Some? && Get(out, "answer").value.Obj?
    && var answer := Get(out, "answer").value.fields;
       Get(answer, "mode") == Some(Str(mode)) && Get(answer, "reason") == Some(Str(reason)) && Get(answer, "gap") == Some(gap)
  }

  lemma RelabelLabels(fields: seq<Field>, answer: seq<Field>, grade: Grade, evidence: seq<Json>)
    ensures Labelled(Relabel(fields, answer, grade, evidence), grade.mode, grade.reason, grade.gap)
  {
    LabelKeys();
    RelabelGet(fields, answer, grade, evidence, "mode");
    RelabelGet(fields, answer, grade, evidence, "reason");
    RelabelGet(fields, answer, grade, evidence, "answer");
    RelabelAnswerGet(answer, grade, "mode");
    RelabelAnswerGet(answer, grade, "reason");
    RelabelAnswerGet(answer, grade, "gap");
    hide Relabel, RelabelAnswer, Get;
  }

  /** A relabelled answer carries one of three labels, and no trace of where it came from. */
  lemma LabelSays(fields: seq<Field>, links: string -> seq<string>, read: Reader)
    requires AnswerOf(fields).Some?
    ensures var out := VerifyFields(fields, links, read);
            && Get(out, "tool_trace") == Some(Arr([])) && Get(out, "answer_origin") == None
            && (Labelled(out, "GROUNDED", "all-native-markdown-journal-citations-verified", Null)
                || Labelled(out, "PARTIAL", "some-native-markdown-journal-citations-rejected",
                            Str("Some journal citations could not be independently verified."))
                || Labelled(out, "UNGROUNDED", "native-markdown-no-verified-journal-evidence",
                            Str("No journal citations were independently verified.")))
  {
    var answer := AnswerOf(fields).value;
    var hrefs := links(Get(answer, "summary").value.text);
    var evidence := EvidenceOf(Candidates(hrefs), read);
    var grade := GradeFor(evidence, Rejected(hrefs, read));
    LabelKeys();
    RelabelGet(fields, answer, grade, evidence, "tool_trace");
    RelabelGet(fields, answer, grade, evidence, "answer_origin");
    RelabelLabels(fields, answer, grade, evidence);
    hide Relabel, RelabelAnswer, Get, EvidenceOf, Candidates, Rejected, Labelled;
  }

  /** The answer is an object with a text summary. */
  predicate Summarized(fields: seq<Field>) {
    && Get(fields, "answer").Some? && Get(fields, "answer").value.Obj?
    && Get(Get(fields, "answer").value.fields, "summary").Some?
    && Get(Get(fields, "answer").value.fields, "summary").value.Str?
  }

  /** A payload without such an answer stays as it is; of any other the label changes only its own
      keys, at the top and in the answer. */
  lemma TheRestIsKept(fields: seq<Field>, links: string -> seq<string>, read: Reader, key: string)
    ensures var out := VerifyFields(fields, links, read);
            if !Summarized(fields) then out == fields
            else
              && (KeptKey(key) ==> Get(out, key) == Get(fields, key))
              && Summarized(out)
              && (key != "mode" && key != "reason" && key != "gap" ==>
                    Get(Get(out, "answer").value.fields, key) == Get(Get(fields, "answer").value.fields, key))
  {
    if Summarized(fields) {
      var answer := AnswerOf(fields).value;
      var hrefs := links(Get(answer, "summary").value.text);
      var evidence := EvidenceOf(Candidates(hrefs), read);
      var grade := GradeFor(evidence, Rejected(hrefs, read));
      LabelKeys();
      RelabelGet(fields, answer, grade, evidence, key);
      RelabelGet(fields, answer, grade, evidence, "answer");
      RelabelAnswerGet(answer, grade, key);
      RelabelAnswerGet(answer, grade, "summary");
    }
    hide Relabel, RelabelAnswer, Get, EvidenceOf, Candidates, Rejected, GradeFor;
  }

  lemma LabelKeys()
    ensures "mode" != "answer" && "mode" != "tool_trace" && "mode" != "evidence" && "mode" != "reason"
    ensures "reason" != "answer" && "reason" != "tool_trace" && "reason" != "evidence" && "answer" != "tool_trace"
    ensures "answer_origin" != "answer" && "answer_origin" != "tool_trace" && "answer_origin" != "evidence"
    ensures "answer_origin" != "reason" && "answer_origin" != "mode" && "gap" != "mode" && "gap" != "reason"
    ensures "summary" != "gap" && "summary" != "reason" && "summary" != "mode"
  {
    assert |"mode"| == 4 && |"reason"| == 6 && |"answer"| == 6 && |"tool_trace"| == 10 && |"evidence"| == 8;
    assert |"answer_origin"| == 13 && |"gap"| == 3 && |"summary"| == 7 && "reason"[0] == 'r' && "answer"[0] == 'a';
  }
}
