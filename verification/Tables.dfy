/** The tables `prepare` builds: what each offered file and text becomes, and when the texts are accepted
    (src/quick_share_receiver.rs:765-868). */
module Tables {
  import opened Prelude
  import opened WireMessages
  import opened Transport
  import opened Paths
  import opened Transfers

  // ------------------------------------------------------------------
  // Texts

  predicate TextOffered(t: TextMetadata) {
    t.payloadId.Some? && t.size.Some? && 0 <= t.size.value <= MAX_WIRE_FRAME_BYTES
  }

  function TextSum(texts: seq<TextMetadata>): nat {
    if texts == [] then 0
    else (if TextOffered(texts[0]) then texts[0].size.value else 0) + TextSum(texts[1..])
  }

  /** Every text has an id of its own, among the texts and among `taken`, and a size up to 5 MiB. */
  ghost predicate TextsOffered(texts: seq<TextMetadata>, taken: set<int>) {
    && (forall i :: 0 <= i < |texts| ==> TextOffered(texts[i]) && texts[i].payloadId.value !in taken)
    && (forall i, j :: 0 <= i < j < |texts| ==> texts[i].payloadId != texts[j].payloadId)
  }

  lemma TextsOfferedStep(texts: seq<TextMetadata>, taken: set<int>)
    requires texts != [] && TextOffered(texts[0])
    ensures TextsOffered(texts, taken) <==>
            texts[0].payloadId.value !in taken && TextsOffered(texts[1..], taken + {texts[0].payloadId.value})
  {
    var id, rest := texts[0].payloadId.value, texts[1..];
    hide TextOffered;
    if id !in taken && TextsOffered(rest, taken + {id}) {
      forall i | 0 <= i < |texts|
        ensures TextOffered(texts[i]) && texts[i].payloadId.Some? && texts[i].payloadId.value !in taken
      {
        if i > 0 {
          assert texts[i] == rest[i - 1];
        }
      }
      forall i, j | 0 <= i < j < |texts|
        ensures texts[i].payloadId != texts[j].payloadId
      {
        assert texts[j] == rest[j - 1];
        if i > 0 {
          assert texts[i] == rest[i - 1];
        }
      }
    }
    if TextsOffered(texts, taken) {
      assert forall i :: 0 <= i < |rest| ==> rest[i] == texts[i + 1];
    }
  }

  predicate EntryFor(t: TextMetadata, texts: map<int, PendingText>) {
    && t.payloadId.Some? && t.size.Some? && t.payloadId.value in texts
    && texts[t.payloadId.value].expectedSize == t.size.value
    && (texts[t.payloadId.value].isUrl <==> t.textType == Some(2))
  }

  /** The table holds what it held, and one entry for every text. */
  ghost predicate TextTable(before: map<int, PendingText>, after: map<int, PendingText>, texts: seq<TextMetadata>) {
    && (forall id :: id in before ==> id in after && after[id] == before[id])
    && (forall id :: id in after ==> id in before || exists i :: 0 <= i < |texts| && texts[i].payloadId == Some(id))
    && (forall i :: 0 <= i < |texts| ==> EntryFor(texts[i], after))
  }

  lemma TextTableStep(
    before: map<int, PendingText>, mid: map<int, PendingText>, after: map<int, PendingText>, texts: seq<TextMetadata>)
    requires texts != [] && texts[0].payloadId.Some? && texts[0].payloadId.value !in before
    requires TextTable(before, mid, texts[..1]) && TextTable(mid, after, texts[1..])
    ensures TextTable(before, after, texts)
  {
    assert texts[..1][0] == texts[0];
    forall i | 0 <= i < |texts|
      ensures EntryFor(texts[i], after)
    {
      if i == 0 {
        assert EntryFor(texts[..1][0], mid);
        var id := texts[0].payloadId.value;
        assert id in mid && id in after && after[id] == mid[id];
      } else {
        assert texts[1..][i - 1] == texts[i] && EntryFor(texts[1..][i - 1], after);
      }
    }
    forall id | id in after
      ensures id in before || exists i :: 0 <= i < |texts| && texts[i].payloadId == Some(id)
    {
      if id !in mid {
        var i :| 0 <= i < |texts[1..]| && texts[1..][i].payloadId == Some(id);
        assert texts[i + 1].payloadId == Some(id);
      } else if id !in before {
        var i :| 0 <= i < |texts[..1]| && texts[..1][i].payloadId == Some(id);
        assert texts[0].payloadId == Some(id);
      }
    }
  }

  lemma OneText(p: Preparing, t: TextMetadata)
    ensures var (next, error) := PrepareText(p, t);
            && (error.None? <==>
                  TextOffered(t) && t.payloadId.value !in p.texts && t.payloadId.value !in p.files
                  && p.total + t.size.value <= MAX_U64)
            && (error.None? ==>
                  && next.disk == p.disk && next.files == p.files && next.total == p.total + t.size.value
                  && next.texts.Keys == p.texts.Keys + {t.payloadId.value}
                  && TextTable(p.texts, next.texts, [t]))
  {
    var (next, error) := PrepareText(p, t);
    if error.None? {
      assert [t][0].payloadId == t.payloadId && EntryFor([t][0], next.texts);
    }
  }

  /** The texts of an introduction are accepted exactly when every one has an id of its own and a size up to 5 MiB, and
      the sum stays within 64 bits; then every text has its entry, with its size and whether it is a URL, and nothing
      else is new. */
  lemma {:induction false} PrepareTextsIff(p: Preparing, texts: seq<TextMetadata>)
    ensures var (next, error) := PrepareTexts(p, texts);
            && (error.None? <==> TextsOffered(texts, p.texts.Keys + p.files.Keys) && (texts != [] ==> p.total + TextSum(texts) <= MAX_U64))
            && (error.None? ==>
                  && next.disk == p.disk && next.files == p.files && next.total == p.total + TextSum(texts)
                  && TextTable(p.texts, next.texts, texts))
    decreases |texts|
  {
    if texts != [] {
      var t, rest := texts[0], texts[1..];
      var (mid, error) := PrepareText(p, t);
      OneText(p, t);
      if TextOffered(t) {
        TextsOfferedStep(texts, p.texts.Keys + p.files.Keys);
      }
      hide TextTable, TextOffered, PrepareText;
      assert TextsOffered(texts, p.texts.Keys + p.files.Keys) ==> TextOffered(t);
      if error.None? {
        PrepareTextsIff(mid, rest);
        assert mid.texts.Keys + mid.files.Keys == p.texts.Keys + p.files.Keys + {t.payloadId.value};
        assert texts[..1] == [t];
        if PrepareTexts(mid, rest).1.None? {
          TextTableStep(p.texts, mid.texts, PrepareTexts(mid, rest).0.texts, texts);
        }
      }
    }
  }

  // ------------------------------------------------------------------
  // Files

  function FileSum(files: seq<FileMetadata>): nat {
    if files == [] then 0
    else (if ValidSize(files[0].size) then files[0].size.value else 0) + FileSum(files[1..])
  }

  predicate FileEntryFor(m: FileMetadata, part: Path, files: map<int, PendingFile>) {
    && m.payloadId.Some? && m.size.Some? && m.payloadId.value in files
    && files[m.payloadId.value].expectedSize == m.size.value && files[m.payloadId.value].received == 0
    && files[m.payloadId.value].partPath == part
  }

  function PartOf(root: Path, processId: nat, choice: Choice): Path {
    root + [".hirodrop-" + Decimal(processId) + "-" + Decimal(choice.part) + ".part"]
  }

  ghost predicate FileTable(
    before: map<int, PendingFile>, after: map<int, PendingFile>, root: Path, files: seq<FileMetadata>, processId: nat, choices: seq<Choice>)
    requires |choices| == |files|
  {
    && (forall id :: id in before ==> id in after && after[id] == before[id])
    && (forall id :: id in after ==> id in before || exists i :: 0 <= i < |files| && files[i].payloadId == Some(id))
    && (forall i :: 0 <= i < |files| ==> FileEntryFor(files[i], PartOf(root, processId, choices[i]), after))
    && (forall i, j :: 0 <= i < j < |files| ==> files[i].payloadId != files[j].payloadId)
    && (forall i :: 0 <= i < |files| && files[i].payloadId.Some? ==> files[i].payloadId.value !in before)
  }

  lemma OneFile(p: Preparing, root: Path, m: FileMetadata, processId: nat, choice: Choice)
    requires PrepareFile(p, root, m, processId, choice).1.None?
    ensures var next := PrepareFile(p, root, m, processId, choice).0;
            && m.payloadId.Some? && ValidSize(m.size) && m.payloadId.value !in p.files
            && FileEntryFor(m, PartOf(root, processId, choice), next.files)
            && next.files == p.files[m.payloadId.value := next.files[m.payloadId.value]]
            && next.texts == p.texts && next.total == p.total + m.size.value
  {
    hide SafeParentDirectory, UniqueDestination, SanitizeFileName, Decimal;
  }

  lemma FileTableStep(
    before: map<int, PendingFile>, mid: map<int, PendingFile>, after: map<int, PendingFile>, root: Path, files: seq<FileMetadata>,
    processId: nat, choices: seq<Choice>)
    requires |choices| == |files| && files != [] && files[0].payloadId.Some? && files[0].payloadId.value !in before
    requires FileEntryFor(files[0], PartOf(root, processId, choices[0]), mid)
    requires mid == before[files[0].payloadId.value := mid[files[0].payloadId.value]]
    requires FileTable(mid, after, root, files[1..], processId, choices[1..])
    ensures FileTable(before, after, root, files, processId, choices)
  {
    hide PartOf;
    var rest := files[1..];
    assert forall i :: 1 <= i < |files| ==> files[i] == rest[i - 1] && choices[i] == choices[1..][i - 1];
    forall i | 0 <= i < |files|
      ensures FileEntryFor(files[i], PartOf(root, processId, choices[i]), after)
    {
      if i == 0 {
        var id := files[0].payloadId.value;
        assert id in mid && id in after && after[id] == mid[id];
      } else {
        assert files[i] == rest[i - 1] && choices[i] == choices[1..][i - 1];
        assert FileEntryFor(rest[i - 1], PartOf(root, processId, choices[1..][i - 1]), after);
      }
    }
    forall id | id in after
      ensures id in before || exists i :: 0 <= i < |files| && files[i].payloadId == Some(id)
    {
      if id !in mid {
        var i :| 0 <= i < |rest| && rest[i].payloadId == Some(id);
        assert files[i + 1].payloadId == Some(id);
      } else if id !in before {
        assert files[0].payloadId == Some(id);
      }
    }
    forall i, j | 0 <= i < j < |files|
      ensures files[i].payloadId != files[j].payloadId
    {
      assert files[j] == rest[j - 1] && FileEntryFor(rest[j - 1], PartOf(root, processId, choices[1..][j - 1]), after);
      if i > 0 {
        assert files[i] == rest[i - 1];
      }
    }
  }

  /** Every file of an introduction that is accepted has its own entry, with its size, nothing received, and a part file
      named by the process and the random number drawn for it; and nothing else is new. */
  lemma {:induction false} PreparedFileTable(p: Preparing, root: Path, files: seq<FileMetadata>, processId: nat, choices: seq<Choice>)
    requires |choices| == |files| && PrepareFiles(p, root, files, processId, choices).1.None?
    ensures var next := PrepareFiles(p, root, files, processId, choices).0;
            && FileTable(p.files, next.files, root, files, processId, choices)
            && next.texts == p.texts && next.total == p.total + FileSum(files)
    decreases |files|
  {
    if files != [] {
      OneFile(p, root, files[0], processId, choices[0]);
      hide PrepareFile, FileEntryFor, PartOf;
      var mid := PrepareFile(p, root, files[0], processId, choices[0]).0;
      PreparedFileTable(mid, root, files[1..], processId, choices[1..]);
      hide FileTable;
      FileTableStep(p.files, mid.files, PrepareFiles(p, root, files, processId, choices).0.files, root, files, processId, choices);
    }
  }

  // ------------------------------------------------------------------
  // The introduction

  /** Once its files are accepted an introduction is, exactly when it announces something, its texts are in order, and
      the sizes add up to at most 100 GiB. The transfer then holds one entry per file and per text, the previews, and
      that sum, and has received nothing. */
  lemma PrepareIff(introduction: Introduction, root: Path, disk: Disk, processId: nat, choices: seq<Choice>)
    requires |choices| == |introduction.files|
    ensures var prepared, files, texts := Prepare(introduction, root, disk, processId, choices), introduction.files, introduction.texts;
            var (made, error) := PrepareFiles(Preparing(disk, map[], map[], 0), root, files, processId, choices);
            && (prepared.result.Ok? <==>
                  && (files != [] || texts != []) && error.None? && TextsOffered(texts, made.files.Keys)
                  && FileSum(files) + TextSum(texts) <= 100 * 1024 * 1024 * 1024)
            && (prepared.result.Ok? ==>
                  var t := prepared.result.value;
                  && FileTable(map[], t.files, root, files, processId, choices) && TextTable(map[], t.texts, texts)
                  && (forall id :: id in t.previews <==> id in introduction.previews)
                  && t.totalBytes == FileSum(files) + TextSum(texts)
                  && t.downloadDirectory == root && t.completed == [] && t.receivedBytes == 0)
  {
    hide PrepareFiles, PrepareTexts, FileTable, TextTable, TextsOffered, FileSum, TextSum;
    var (made, error) := PrepareFiles(Preparing(disk, map[], map[], 0), root, introduction.files, processId, choices);
    if error.None? {
      PreparedFileTable(Preparing(disk, map[], map[], 0), root, introduction.files, processId, choices);
      PrepareTextsIff(made, introduction.texts);
      NoTexts(made.files.Keys);
      assert made.texts.Keys == {} && made.texts.Keys + made.files.Keys == made.files.Keys;
      var (p, e) := PrepareTexts(made, introduction.texts);
      assert introduction.texts == [] ==> TextSum(introduction.texts) == 0;
      assert Prepare(introduction, root, disk, processId, choices).result.Ok? <==>
             (introduction.files != [] || introduction.texts != []) && e.None? && p.total <= MAX_TOTAL_TRANSFER_BYTES;
    }
  }

  lemma NoTexts(taken: set<int>)
    ensures TextSum([]) == 0 && TextsOffered([], taken)
  {
  }
}
