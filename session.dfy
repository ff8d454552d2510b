/** The page's state and its event handlers (src/uuid-generator.js:71,
    145-290, 355-480): the last single UUID, the single display, the batch
    results area, and what generating, re-formatting, copying, downloading
    and clearing do to them. Clipboard, file and alert side effects are
    returned as values. */
module Session {
  import opened Wrappers
  import opened Strings
  import opened UuidFormat
  import opened Generation
  import Base64

  /** Why a handler reported an error instead of acting. */
  datatype Failure = CountOutOfRange | GenerationFailed | NothingToCopy | NothingToDownload

  /** What a handler that changes the page did. */
  datatype Outcome = Done | Refused(failure: Failure)

  /** A file offered for download. */
  datatype TextFile = TextFile(fileName: string, mimeType: string, body: string)

  /** `uuids.map(formatUUID)`. */
  function FormatAll(uuids: seq<string>, s: Settings, toBinary: string -> string): seq<string>
  {
    seq(|uuids|, i requires 0 <= i < |uuids| => Format(uuids[i], s, toBinary))
  }

  /** What `displayBatchResults` writes: the formatted UUIDs, one per line. */
  function BatchText(uuids: seq<string>, s: Settings, toBinary: string -> string): string
  {
    Join(FormatAll(uuids, s, toBinary), "\n")
  }

  /** The download's name: `uuids_`, the timestamp up to the seconds with
      every `:` made a `-`, then `.txt`. */
  function DownloadName(now: string): string
  {
    "uuids_" + ReplaceAll(now[..Min(19, |now|)], ':', "-") + ".txt"
  }

  /** The shape of `Date.prototype.toISOString`: `YYYY-MM-DDTHH:mm:ss.sssZ`. */
  predicate IsIsoTimestamp(t: string)
  {
    && |t| == 24
    && t[4] == '-' && t[7] == '-' && t[10] == 'T' && t[13] == ':' && t[16] == ':' && t[19] == '.' && t[23] == 'Z'
    && forall i :: 0 <= i < 24 && i !in {4, 7, 10, 13, 16, 19, 23} ==> '0' <= t[i] <= '9'
  }

  // ---------------------------------------------------------------------------
  // Properties of the batch text and of the file name
  // ---------------------------------------------------------------------------

  /** No format puts a line break into a UUID that has none, given that the
      binary rendering has none (a number's digits never do). */
  lemma FormatWithoutNewline(u: string, s: Settings, toBinary: string -> string)
    requires '\n' !in u
    requires s.format == "binary" ==> '\n' !in toBinary(ReplaceAll(u, '-', ""))
    ensures '\n' !in Format(u, s, toBinary)
  {
    if s.format == "string" {
      FoldKeepsAbsent(u, CaseOption(s) == "upper", '\n');
      ReplaceAllKeepsAbsent(Fold(u, CaseOption(s) == "upper"), '-', "", '\n');
    } else if s.format == "hex" {
      ReplaceAllKeepsAbsent(u, '-', "", '\n');
    } else if s.format == "base64" {
      Base64.EncodeAlphabet(Base64Input(u));
      assert Format(u, s, toBinary) == Base64.Encode(Base64Input(u));
    }
  }

  /** The batch text holds one line per UUID: splitting it at the line
      breaks gives back the formatted UUIDs, in order, and it has one line
      break fewer than UUIDs. */
  lemma BatchTextLines(uuids: seq<string>, s: Settings, toBinary: string -> string)
    requires |uuids| >= 1
    requires forall i :: 0 <= i < |uuids| ==> '\n' !in uuids[i]
    requires s.format == "binary" ==> forall h :: '\n' !in toBinary(h)
    ensures Split(BatchText(uuids, s, toBinary), '\n') == FormatAll(uuids, s, toBinary)
    ensures multiset(BatchText(uuids, s, toBinary))['\n'] == |uuids| - 1
  {
    var lines := FormatAll(uuids, s, toBinary);
    forall k | 0 <= k < |lines| ensures '\n' !in lines[k] {
      FormatWithoutNewline(uuids[k], s, toBinary);
    }
    SplitJoin(lines, '\n');
    JoinSeparatorCount(lines, '\n');
  }

  /** The download name of an ISO timestamp: 29 characters, no `:`, and
      the date and time to the second with `-` between hours, minutes and
      seconds. */
  lemma DownloadNameShape(now: string)
    requires IsIsoTimestamp(now)
    ensures |DownloadName(now)| == 29 && ':' !in DownloadName(now)
    ensures DownloadName(now) == "uuids_" + now[..13] + "-" + now[14..16] + "-" + now[17..19] + ".txt"
  {
    var head := now[..19];
    var dashed := ReplaceAll(head, ':', "-");
    var expected := now[..13] + "-" + now[14..16] + "-" + now[17..19];
    forall i | 0 <= i < 19 ensures dashed[i] == expected[i] {
      ReplaceAllAt(head, ':', '-', i);
      assert head[i] == ':' <==> i == 13 || i == 16;
    }
    assert dashed == expected;
  }

  /** Two ISO timestamps give the same download name exactly when they
      agree up to the second. */
  lemma DownloadNameDeterminesSecond(a: string, b: string)
    requires IsIsoTimestamp(a) && IsIsoTimestamp(b)
    ensures DownloadName(a) == DownloadName(b) <==> a[..19] == b[..19]
  {
    DownloadNameShape(a);
    DownloadNameShape(b);
    if DownloadName(a) == DownloadName(b) {
      forall i | 0 <= i < 19 ensures a[i] == b[i] {
        if i < 13 {
          assert DownloadName(a)[6 + i] == a[i];
          assert DownloadName(b)[6 + i] == b[i];
        } else if i == 14 || i == 15 || i == 17 || i == 18 {
          assert DownloadName(a)[6 + i] == a[i];
          assert DownloadName(b)[6 + i] == b[i];
        }
      }
      assert a[..19] == b[..19];
    } else {
      assert a[..13] != b[..13] || a[14..16] != b[14..16] || a[17..19] != b[17..19];
    }
  }

  // ---------------------------------------------------------------------------
  // The page
  // ---------------------------------------------------------------------------

  /** The page's mutable state. `settings` are the format selector and the
      checked case and line radios; `toBinary(h)` stands for
      `parseInt(h, 16).toString(2)`. */
  class UuidSession {
    /** `currentUUID`: the last single UUID generated, empty before the first. */
    var currentUUID: string
    /** The single display, `singleUuidInput.value`. */
    var singleField: string
    /** The batch results area, `generateContentArea.textContent`. */
    var content: string
    /** Whether the namespace and name fields are shown. */
    var namespaceShown: bool
    /** The current output settings. */
    var settings: Settings
    const toBinary: string -> string

    /** Once a UUID has been generated, the single display shows it as the
        current settings format it. */
    ghost predicate Valid()
      reads this
    {
      currentUUID != "" ==> singleField == Format(currentUUID, settings, toBinary)
    }

    /** The page as loaded, before its first UUID. */
    constructor (toBinary: string -> string, settings: Settings, field: string, results: string, namespaceShown: bool)
      ensures Valid()
      ensures this.toBinary == toBinary && this.settings == settings
      ensures currentUUID == "" && singleField == field && content == results && this.namespaceShown == namespaceShown
    {
      this.toBinary := toBinary;
      this.settings := settings;
      currentUUID := "";
      singleField := field;
      content := results;
      this.namespaceShown := namespaceShown;
    }

    /** `updateSingleUUIDDisplay`: nothing before the first UUID, otherwise
        the display shows `currentUUID` formatted. */
    method UpdateSingleDisplay()
      modifies this
      ensures Valid()
      ensures currentUUID == old(currentUUID) && content == old(content)
      ensures settings == old(settings) && namespaceShown == old(namespaceShown)
      ensures singleField == if currentUUID == "" then old(singleField) else Format(currentUUID, settings, toBinary)
    {
      if currentUUID == "" {
        return;
      }
      singleField := FormatUUID(currentUUID, settings, toBinary);
    }

    /** A change of the format selector, `formatChangeHandler`: the single
        display is redrawn; the batch results keep their old format. */
    method ChangeFormat(format: string)
      modifies this
      ensures Valid()
      ensures settings == old(settings).(format := format)
      ensures currentUUID == old(currentUUID) && content == old(content) && namespaceShown == old(namespaceShown)
      ensures singleField == if currentUUID == "" then old(singleField) else Format(currentUUID, settings, toBinary)
    {
      settings := settings.(format := format);
      UpdateSingleDisplay();
    }

    /** A case or line radio became the checked one: the single display is
        redrawn. */
    method ChangeRadios(caseRadio: Option<string>, lineRadio: Option<string>)
      modifies this
      ensures Valid()
      ensures settings == old(settings).(caseRadio := caseRadio, lineRadio := lineRadio)
      ensures currentUUID == old(currentUUID) && content == old(content) && namespaceShown == old(namespaceShown)
      ensures singleField == if currentUUID == "" then old(singleField) else Format(currentUUID, settings, toBinary)
    {
      settings := settings.(caseRadio := caseRadio, lineRadio := lineRadio);
      UpdateSingleDisplay();
    }

    /** `generateSingleUUID`: on success the new UUID becomes current and is
        displayed; if the generator throws, nothing changes. */
    method GenerateSingle(lib: Library, select: string, namespace: string, name: string) returns (outcome: Outcome)
      modifies this
      requires Valid()
      ensures Valid()
      ensures content == old(content) && settings == old(settings) && namespaceShown == old(namespaceShown)
      ensures outcome == Done <==> Single(lib, select, namespace, name).Some?
      ensures outcome == Refused(GenerationFailed) <==> Single(lib, select, namespace, name).None?
      ensures outcome.Refused? ==> currentUUID == old(currentUUID) && singleField == old(singleField)
      ensures outcome == Done ==> currentUUID == Single(lib, select, namespace, name).value
      ensures outcome == Done && currentUUID != "" ==> singleField == Format(currentUUID, settings, toBinary)
      ensures outcome == Done && currentUUID == "" ==> singleField == old(singleField)
    {
      var uuid := Single(lib, select, namespace, name);
      if uuid.None? {
        return Refused(GenerationFailed);
      }
      currentUUID := uuid.value;
      UpdateSingleDisplay();
      return Done;
    }

    /** `handleVersionChange`: the namespace fields are shown for `v3` and
        `v5` only, then a new single UUID is generated. */
    method ChangeVersion(lib: Library, select: string, namespace: string, name: string) returns (outcome: Outcome)
      modifies this
      requires Valid()
      ensures Valid()
      ensures namespaceShown <==> select == "v3" || select == "v5"
      ensures content == old(content) && settings == old(settings)
      ensures outcome == Done <==> Single(lib, select, namespace, name).Some?
      ensures outcome == Refused(GenerationFailed) <==> Single(lib, select, namespace, name).None?
      ensures outcome.Refused? ==> currentUUID == old(currentUUID) && singleField == old(singleField)
      ensures outcome == Done ==> currentUUID == Single(lib, select, namespace, name).value
      ensures outcome == Done && currentUUID != "" ==> singleField == Format(currentUUID, settings, toBinary)
      ensures outcome == Done && currentUUID == "" ==> singleField == old(singleField)
    {
      namespaceShown := select == "v3" || select == "v5";
      outcome := GenerateSingle(lib, select, namespace, name);
    }

    /** `generateBatchUUIDs`: a count that is not a number between 1 and
        1000000 is refused; a throwing generator abandons the batch; either
        way the results area is untouched. Otherwise it shows the new batch,
        formatted, one UUID per line. */
    method GenerateBatch(lib: Library, select: string, namespace: string, name: string, count: Option<int>)
      returns (outcome: Outcome)
      modifies this
      requires Valid()
      ensures Valid()
      ensures currentUUID == old(currentUUID) && singleField == old(singleField)
      ensures settings == old(settings) && namespaceShown == old(namespaceShown)
      ensures outcome == Done <==> ValidCount(count) && Batch(lib, select, namespace, name, count.value).Some?
      ensures outcome == Refused(CountOutOfRange) <==> !ValidCount(count)
      ensures outcome == Refused(GenerationFailed) <==>
        ValidCount(count) && Batch(lib, select, namespace, name, count.value).None?
      ensures outcome.Refused? ==> content == old(content)
      ensures outcome == Done ==>
        content == BatchText(Batch(lib, select, namespace, name, count.value).value, settings, toBinary)
    {
      if count.None? || count.value < 1 || count.value > MaxCount {
        return Refused(CountOutOfRange);
      }
      var uuids := CollectBatch(lib, select, namespace, name, count.value);
      if uuids.None? {
        return Refused(GenerationFailed);
      }
      content := BatchText(uuids.value, settings, toBinary);
      return Done;
    }

    /** `clearResults`: the results area is emptied. */
    method ClearResults()
      modifies this
      requires Valid()
      ensures Valid()
      ensures content == ""
      ensures currentUUID == old(currentUUID) && singleField == old(singleField)
      ensures settings == old(settings) && namespaceShown == old(namespaceShown)
    {
      content := "";
    }

    /** `copySingleUUID`: the text handed to the clipboard, if any; an empty
        display is silently ignored. Once a UUID exists, what is copied is
        that UUID as the current settings format it. */
    method CopySingle() returns (copied: Option<string>)
      requires Valid()
      ensures copied.Some? <==> singleField != ""
      ensures copied.Some? ==> copied.value == singleField
      ensures currentUUID != "" && Format(currentUUID, settings, toBinary) != "" ==>
        copied == Some(Format(currentUUID, settings, toBinary))
    {
      if singleField == "" {
        return None;
      }
      return Some(singleField);
    }

    /** `copyBatchUUIDs`: the results text, or an error when it is empty. */
    method CopyBatch() returns (copied: Result<string, Failure>)
      ensures copied.Failure? <==> content == ""
      ensures copied.Failure? ==> copied.error == NothingToCopy
      ensures copied.Success? ==> copied.value == content
    {
      if content == "" {
        return Failure(NothingToCopy);
      }
      return Success(content);
    }

    /** `downloadUUIDs` at the moment whose ISO string is `now`: a plain
        text file holding the results, or an error when they are empty. */
    method Download(now: string) returns (file: Result<TextFile, Failure>)
      ensures file.Failure? <==> content == ""
      ensures file.Failure? ==> file.error == NothingToDownload
      ensures file.Success? ==> file.value == TextFile(DownloadName(now), "text/plain", content)
    {
      if content == "" {
        return Failure(NothingToDownload);
      }
      return Success(TextFile(DownloadName(now), "text/plain", content));
    }
  }

  /** A batch from a library of canonical UUIDs, once shown, reads back as
      its formatted UUIDs line by line (the binary rendering having no line
      breaks). */
  lemma ShownBatchLines(lib: Library, select: string, namespace: string, name: string, n: nat,
                        s: Settings, toBinary: string -> string)
    requires ProducesCanonical(lib) && n >= 1 && Batch(lib, select, namespace, name, n).Some?
    requires s.format == "binary" ==> forall h :: '\n' !in toBinary(h)
    ensures var uuids := Batch(lib, select, namespace, name, n).value;
      Split(BatchText(uuids, s, toBinary), '\n') == FormatAll(uuids, s, toBinary)
      && |FormatAll(uuids, s, toBinary)| == n
  {
    var uuids := Batch(lib, select, namespace, name, n).value;
    BatchCanonical(lib, select, namespace, name, n);
    forall i | 0 <= i < |uuids| ensures '\n' !in uuids[i] {
      CanonicalHasNoNewline(uuids[i]);
    }
    BatchTextLines(uuids, s, toBinary);
  }

  /** A canonical UUID is one line. */
  lemma CanonicalHasNoNewline(u: string)
    requires IsCanonical(u)
    ensures '\n' !in u
  {
  }
}
