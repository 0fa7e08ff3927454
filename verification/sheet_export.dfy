/**
  The glue of the sheet exporter: `exportGoogleSheetsFile` (argument
  checks, the Drive and spreadsheet lookups, the format dispatch and the
  `try`/`catch` around it), the CSV and TSV helpers, and
  `googleSheetExporter_`.

  Drive and the spreadsheet service are values handed in by the caller: a
  map from folder ids to folders, a map from sheet ids to spreadsheets, and
  a function giving the URL of the file `createFile` makes from a blob.
*/
module SheetExport {
  import opened Wrappers
  import opened SheetContents

  /** A JavaScript argument that should be a string: `undefined`, `null` or a string. */
  datatype JsString = Undefined | Null | Str(text: string)

  /** The falsy values among them: `undefined`, `null` and the empty string. */
  predicate Falsy(v: JsString) {
    v.Undefined? || v.Null? || v == Str("")
  }

  /** `v || fallback`. */
  function OrDefault(v: JsString, fallback: string): (r: string)
    ensures Falsy(v) ==> r == fallback
    ensures !Falsy(v) ==> v == Str(r) && r != ""
  {
    if Falsy(v) then fallback else v.text
  }

  /** A spreadsheet file: its name and its sheets by name. */
  datatype Spreadsheet = Spreadsheet(name: string, sheets: map<string, Grid>)

  datatype Folder = Folder(id: string)

  /** `Utilities.newBlob(contents, contentType, name)`. */
  datatype Blob = Blob(contents: string, contentType: string, name: string)

  /** The URL of the file `folder.createFile(blob)` creates. */
  type FileCreator = (Folder, Blob) -> string

  /** A file created in a folder, and the URL `getUrl()` gives for it. */
  datatype Upload = Upload(folder: Folder, blob: Blob, url: string)

  /** The part of the MIME type after `text/`: a `switch` with one special case. */
  function ContentType(ext: string): (t: string)
    ensures ext == "tsv" ==> t == "tab-separated-values"
    ensures ext != "tsv" ==> t == ext
  {
    if ext == "tsv" then "tab-separated-values" else ext
  }

  function MimeType(ext: string): string {
    "text/" + ContentType(ext)
  }

  /**
    `googleSheetExporter_`: a blob of the contents, with the MIME type of
    the extension and the name `<targetFilename>.<ext>`, created in the
    folder.
  */
  function GoogleSheetExporter(sheetContents: string, targetFilename: string, targetFolder: Folder, ext: string,
                               createFile: FileCreator): (u: Upload)
    ensures u.folder == targetFolder && u.blob.contents == sheetContents
    ensures u.blob.contentType == MimeType(ext)
    ensures |u.blob.name| == |targetFilename| + 1 + |ext|
    ensures u.blob.name[..|targetFilename|] == targetFilename && u.blob.name[|targetFilename|] == '.'
    ensures u.blob.name[|targetFilename| + 1..] == ext
    ensures u.url == createFile(targetFolder, u.blob)
  {
    var blob := Blob(sheetContents, MimeType(ext), targetFilename + "." + ext);
    Upload(targetFolder, blob, createFile(targetFolder, blob))
  }

  /** The MIME type of the CSV helper. */
  lemma CsvMimeType()
    ensures MimeType("csv") == "text/csv"
  {
    assert "csv"[0] != "tsv"[0];
  }

  /** The MIME type of the TSV helper. */
  lemma TsvMimeType()
    ensures MimeType("tsv") == "text/tab-separated-values"
  {
    assert ContentType("tsv") == "tab-separated-values";
  }

  /**
    Two extensions share a MIME type only when they are `tsv` and
    `tab-separated-values`: every other extension has a type of its own.
  */
  lemma MimeTypeCollision(a: string, b: string)
    requires a != b && MimeType(a) == MimeType(b)
    ensures (a == "tsv" && b == "tab-separated-values") || (a == "tab-separated-values" && b == "tsv")
  {
    assert ContentType(a) == MimeType(a)[5..];
    assert ContentType(b) == MimeType(b)[5..];
  }

  /** Splits a file name at its last dot into base name and extension. */
  function SplitExtension(name: string): (r: Option<(string, string)>)
    ensures r.Some? ==> name == r.value.0 + "." + r.value.1 && '.' !in r.value.1
  {
    if name == [] then None
    else if name[|name| - 1] == '.' then Some((name[..|name| - 1], []))
    else match SplitExtension(name[..|name| - 1])
      case None => None
      case Some((base, ext)) => Some((base, ext + [name[|name| - 1]]))
  }

  /** The blob name gives back the file name and the extension when the extension has no dot. */
  lemma {:induction false} SplitBlobName(targetFilename: string, ext: string)
    requires '.' !in ext
    ensures SplitExtension(targetFilename + "." + ext) == Some((targetFilename, ext))
  {
    var name := targetFilename + "." + ext;
    if ext == [] {
      assert name[..|name| - 1] == targetFilename;
    } else {
      var init := ext[..|ext| - 1];
      assert ext[|ext| - 1] in ext;
      assert '.' !in init by {
        forall i | 0 <= i < |init| ensures init[i] != '.' {
          assert init[i] == ext[i];
          assert ext[i] in ext;
        }
      }
      SplitBlobName(targetFilename, init);
      assert name[..|name| - 1] == targetFilename + "." + init;
      assert init + [ext[|ext| - 1]] == ext;
    }
  }

  /** What the export helpers throw, and what `exportGoogleSheetsFile` catches. */
  datatype ExportError =
    | SheetNotFound(sheetName: string)  // `getSheetByName` gave null, and `null.getRange` is a TypeError
    | NotDefined(name: string)          // a ReferenceError: the function called is not defined
    | FormatIsNull                      // `null.toLowerCase()` is a TypeError
    | UnsupportedFormat(message: string)

  /**
    The pipeline shared by `exportToCSV_` and `exportTempToTSV_`: serialize
    the named sheet with the delimiter, and upload it under the name
    `<file name> - <sheet name>` with the extension.
  */
  function ExportSheet(sourceGSheet: Spreadsheet, sheetName: string, targetFolder: Folder, delimiter: string,
                       ext: string, createFile: FileCreator): (r: Result<Upload, ExportError>)
    ensures r.Err? <==> sheetName !in sourceGSheet.sheets
    ensures r.Err? ==> r.error == SheetNotFound(sheetName)
    ensures r.Ok? ==> r.value.blob.contents == SheetText(sourceGSheet.sheets[sheetName], delimiter)
  {
    if sheetName !in sourceGSheet.sheets then Err(SheetNotFound(sheetName))
    else
      var gsheetsContent := SheetText(sourceGSheet.sheets[sheetName], delimiter);
      Ok(GoogleSheetExporter(gsheetsContent, sourceGSheet.name + " - " + sheetName, targetFolder, ext, createFile))
  }

  /** `exportToCSV_`: a falsy delimiter becomes a comma, and the extension is `csv`. */
  function ExportToCsv(sourceGSheet: Spreadsheet, sheetName: string, targetFolder: Folder, delimiter: JsString,
                       createFile: FileCreator): (r: Result<Upload, ExportError>)
    ensures r.Ok? <==> sheetName in sourceGSheet.sheets
    ensures r.Ok? ==> r.value.folder == targetFolder && r.value.blob.contentType == "text/csv"
    ensures r.Ok? ==> r.value.blob.contents
                      == SheetText(sourceGSheet.sheets[sheetName], if Falsy(delimiter) then "," else delimiter.text)
  {
    CsvMimeType();
    ExportSheet(sourceGSheet, sheetName, targetFolder, OrDefault(delimiter, ","), "csv", createFile)
  }

  /** `exportTempToTSV_`: a falsy delimiter becomes a tab, and the extension is `tsv`. */
  function ExportTempToTsv(sourceGSheet: Spreadsheet, sheetName: string, targetFolder: Folder, delimiter: JsString,
                           createFile: FileCreator): (r: Result<Upload, ExportError>)
    ensures r.Ok? <==> sheetName in sourceGSheet.sheets
    ensures r.Ok? ==> r.value.folder == targetFolder && r.value.blob.contentType == "text/tab-separated-values"
    ensures r.Ok? ==> r.value.blob.contents
                      == SheetText(sourceGSheet.sheets[sheetName], if Falsy(delimiter) then "\t" else delimiter.text)
  {
    TsvMimeType();
    ExportSheet(sourceGSheet, sheetName, targetFolder, OrDefault(delimiter, "\t"), "tsv", createFile)
  }

  /**
    The file `ExportSheet` uploads: in the target folder, named after the
    spreadsheet, the sheet and the extension, with the extension's MIME
    type; a reader given the delimiter gets the sheet's grid back from its
    contents when the delimiter is separable.
  */
  lemma ExportSheetFile(sourceGSheet: Spreadsheet, sheetName: string, targetFolder: Folder, delimiter: string,
                        ext: string, createFile: FileCreator)
    requires sheetName in sourceGSheet.sheets && '.' !in ext
    ensures var r := ExportSheet(sourceGSheet, sheetName, targetFolder, delimiter, ext, createFile);
            && r.Ok?
            && r.value.folder == targetFolder
            && r.value.blob.contentType == MimeType(ext)
            && SplitExtension(r.value.blob.name) == Some((sourceGSheet.name + " - " + sheetName, ext))
            && r.value.url == createFile(targetFolder, r.value.blob)
            && (Separable(delimiter) ==>
                  ParseSheet(r.value.blob.contents, delimiter) == Some(sourceGSheet.sheets[sheetName]))
  {
    var r := ExportSheet(sourceGSheet, sheetName, targetFolder, delimiter, ext, createFile);
    var base := sourceGSheet.name + " - " + sheetName;
    assert r.value.blob.name == base + "." + ext;
    SplitBlobName(base, ext);
    if Separable(delimiter) {
      SheetTextRoundTrip(sourceGSheet.sheets[sheetName], delimiter);
    }
  }

  /**
    The CSV export: comma by default, any other delimiter kept; the file
    is a `text/csv` file named `<file name> - <sheet name>.csv`, whose
    contents read back to the sheet with that delimiter.
  */
  lemma CsvExport(sourceGSheet: Spreadsheet, sheetName: string, targetFolder: Folder, delimiter: JsString,
                  createFile: FileCreator)
    ensures ExportToCsv(sourceGSheet, sheetName, targetFolder, delimiter, createFile).Ok?
            <==> sheetName in sourceGSheet.sheets
    ensures var r := ExportToCsv(sourceGSheet, sheetName, targetFolder, delimiter, createFile);
            var used := if Falsy(delimiter) then "," else delimiter.text;
            r.Ok? ==>
              && r.value.blob.contentType == "text/csv"
              && SplitExtension(r.value.blob.name) == Some((sourceGSheet.name + " - " + sheetName, "csv"))
              && r.value.blob.contents == SheetText(sourceGSheet.sheets[sheetName], used)
              && (Separable(used) ==> ParseSheet(r.value.blob.contents, used) == Some(sourceGSheet.sheets[sheetName]))
  {
    if sheetName in sourceGSheet.sheets {
      ExportSheetFile(sourceGSheet, sheetName, targetFolder, OrDefault(delimiter, ","), "csv", createFile);
      CsvMimeType();
    }
  }

  /**
    The TSV export: tab by default, any other delimiter kept; the file is a
    `text/tab-separated-values` file named `<file name> - <sheet name>.tsv`.
  */
  lemma TsvExport(sourceGSheet: Spreadsheet, sheetName: string, targetFolder: Folder, delimiter: JsString,
                  createFile: FileCreator)
    ensures ExportTempToTsv(sourceGSheet, sheetName, targetFolder, delimiter, createFile).Ok?
            <==> sheetName in sourceGSheet.sheets
    ensures var r := ExportTempToTsv(sourceGSheet, sheetName, targetFolder, delimiter, createFile);
            var used := if Falsy(delimiter) then "\t" else delimiter.text;
            r.Ok? ==>
              && r.value.blob.contentType == "text/tab-separated-values"
              && SplitExtension(r.value.blob.name) == Some((sourceGSheet.name + " - " + sheetName, "tsv"))
              && r.value.blob.contents == SheetText(sourceGSheet.sheets[sheetName], used)
              && (Separable(used) ==> ParseSheet(r.value.blob.contents, used) == Some(sourceGSheet.sheets[sheetName]))
  {
    if sheetName in sourceGSheet.sheets {
      ExportSheetFile(sourceGSheet, sheetName, targetFolder, OrDefault(delimiter, "\t"), "tsv", createFile);
      TsvMimeType();
    }
  }

  /** The default delimiters are separable, so a default export always reads back. */
  lemma DefaultDelimitersSeparable()
    ensures Separable(",") && Separable("\t")
  {
  }

  // ---------------------------------------------------------------------------
  // exportGoogleSheetsFile

  /** `String.prototype.toLowerCase` on one character, for the ASCII letters. */
  function LowerChar(c: char): char {
    if 'A' <= c <= 'Z' then (c as int + 32) as char else c
  }

  function Lower(s: string): (r: string)
    ensures |r| == |s|
    ensures forall i :: 0 <= i < |s| ==> r[i] == LowerChar(s[i])
  {
    if s == [] then [] else [LowerChar(s[0])] + Lower(s[1..])
  }

  /** The message thrown for an empty parameter. */
  function EmptyParameterMessage(parameter: string): (m: string)
    ensures |m| == 18 + |parameter| + 18
    ensures m[..18] == "ERROR: Parameter '" && m[18..18 + |parameter|] == parameter
    ensures m[18 + |parameter|..] == "' cannot be empty."
  {
    "ERROR: Parameter '" + parameter + "' cannot be empty."
  }

  /** The message thrown for an unsupported format: it quotes the format as given, not lower-cased. */
  function UnsupportedFormatMessage(toFormat: string): (m: string)
    ensures |m| == 19 + |toFormat| + 19
    ensures m[..19] == "Input file format '" && m[19..19 + |toFormat|] == toFormat
    ensures m[19 + |toFormat|..] == "' is not supported."
  {
    "Input file format '" + toFormat + "' is not supported."
  }

  /** What `exportGoogleSheetsFile` lets escape: the checks and the two lookups before its `try`. */
  datatype Thrown =
    | EmptyParameter(message: string)
    | FolderNotFound(folderId: string)
    | SpreadsheetNotFound(sheetId: string)

  /**
    The outcome of `exportGoogleSheetsFile`: it throws, or it returns after
    logging either the exported file or the error it caught.
  */
  datatype Outcome = Threw(thrown: Thrown) | Returned(logged: Result<Upload, ExportError>)

  /** The services the export reads: Drive folders, spreadsheets, and file creation. */
  datatype Services = Services(folders: map<string, Folder>, files: map<string, Spreadsheet>, createFile: FileCreator)

  /**
    The `try` block of `exportGoogleSheetsFile`: `toFormat` (its default
    `"csv"` when undefined) lower-cased and dispatched. The `tsv` branch
    calls `exportToTSV_`, which is not defined, so it fails like every
    other error here and is caught.
  */
  function Dispatch(gsheetsFile: Spreadsheet, sheetName: string, driveFolder: Folder, toFormat: JsString,
                    delimiter: JsString, createFile: FileCreator): (r: Result<Upload, ExportError>)
    ensures toFormat.Null? ==> r == Err(FormatIsNull)
    ensures r.Ok? ==> toFormat.Undefined? || (toFormat.Str? && Lower(toFormat.text) == "csv")
    ensures r.Ok? ==> r.value.blob.contentType == "text/csv"
    ensures r == Err(NotDefined("exportToTSV_")) <==> toFormat.Str? && Lower(toFormat.text) == "tsv"
  {
    if toFormat.Null? then Err(FormatIsNull)
    else
      var f := if toFormat.Undefined? then "csv" else toFormat.text;
      var lower := Lower(f);
      if lower == "csv" then ExportToCsv(gsheetsFile, sheetName, driveFolder, delimiter, createFile)
      else if lower == "tsv" then Err(NotDefined("exportToTSV_"))
      else Err(UnsupportedFormat(UnsupportedFormatMessage(f)))
  }

  /**
    `exportGoogleSheetsFile`: the three parameter checks in order, the
    folder and spreadsheet lookups (their failures escape), then the
    dispatch, whose errors are caught and logged.
  */
  function ExportGoogleSheetsFile(sheetId: JsString, sheetName: JsString, targetFolderId: JsString,
                                  toFormat: JsString, delimiter: JsString, services: Services): (r: Outcome)
    ensures r.Threw? <==> SomeParameterEmpty(sheetId, sheetName, targetFolderId)
                          || targetFolderId.text !in services.folders
                          || sheetId.text !in services.files
    ensures r.Threw? && r.thrown.EmptyParameter? <==> SomeParameterEmpty(sheetId, sheetName, targetFolderId)
  {
    if Falsy(sheetId) then Threw(EmptyParameter(EmptyParameterMessage("sheetId")))
    else if Falsy(sheetName) then Threw(EmptyParameter(EmptyParameterMessage("sheetName")))
    else if Falsy(targetFolderId) then Threw(EmptyParameter(EmptyParameterMessage("targetFolderId")))
    else if targetFolderId.text !in services.folders then Threw(FolderNotFound(targetFolderId.text))
    else if sheetId.text !in services.files then Threw(SpreadsheetNotFound(sheetId.text))
    else
      var driveFolder := services.folders[targetFolderId.text];
      var gsheetsFile := services.files[sheetId.text];
      Returned(Dispatch(gsheetsFile, sheetName.text, driveFolder, toFormat, delimiter, services.createFile))
  }

  /** Some argument fails its check. */
  predicate SomeParameterEmpty(sheetId: JsString, sheetName: JsString, targetFolderId: JsString) {
    Falsy(sheetId) || Falsy(sheetName) || Falsy(targetFolderId)
  }

  /**
    The checks come before any service is used: with an empty argument the
    outcome is the same whatever Drive holds and whatever the format and
    delimiter are, and it names the first empty argument.
  */
  lemma ValidationFirst(sheetId: JsString, sheetName: JsString, targetFolderId: JsString,
                        toFormat1: JsString, delimiter1: JsString, services1: Services,
                        toFormat2: JsString, delimiter2: JsString, services2: Services)
    requires SomeParameterEmpty(sheetId, sheetName, targetFolderId)
    ensures var r := ExportGoogleSheetsFile(sheetId, sheetName, targetFolderId, toFormat1, delimiter1, services1);
            && r == ExportGoogleSheetsFile(sheetId, sheetName, targetFolderId, toFormat2, delimiter2, services2)
            && r.Threw? && r.thrown.EmptyParameter?
            && r.thrown.message == EmptyParameterMessage(
                 if Falsy(sheetId) then "sheetId" else if Falsy(sheetName) then "sheetName" else "targetFolderId")
  {
  }

  /** The three messages are different, so the message tells which argument was empty. */
  lemma EmptyParameterMessagesDistinct()
    ensures EmptyParameterMessage("sheetId") != EmptyParameterMessage("sheetName")
    ensures EmptyParameterMessage("sheetName") != EmptyParameterMessage("targetFolderId")
    ensures EmptyParameterMessage("sheetId") != EmptyParameterMessage("targetFolderId")
  {
    assert EmptyParameterMessage("sheetId")[20] == 'e';
    assert EmptyParameterMessage("sheetName")[20] == 'e';
    assert EmptyParameterMessage("sheetId")[23] == 'I';
    assert EmptyParameterMessage("sheetName")[23] == 'N';
    assert EmptyParameterMessage("targetFolderId")[18] == 't';
    assert EmptyParameterMessage("sheetId")[18] == 's';
  }

  /**
    The format is matched without regard to case: two spellings with the
    same lower-case form give the same outcome, and a missing format acts
    as `"csv"`.
  */
  lemma FormatCaseInsensitive(sheetId: JsString, sheetName: JsString, targetFolderId: JsString,
                              format1: string, format2: string, delimiter: JsString, services: Services)
    requires Lower(format1) == Lower(format2) && Lower(format1) in {"csv", "tsv"}
    ensures ExportGoogleSheetsFile(sheetId, sheetName, targetFolderId, Str(format1), delimiter, services)
            == ExportGoogleSheetsFile(sheetId, sheetName, targetFolderId, Str(format2), delimiter, services)
  {
  }

  lemma DefaultFormatIsCsv(sheetId: JsString, sheetName: JsString, targetFolderId: JsString,
                           delimiter: JsString, services: Services)
    ensures ExportGoogleSheetsFile(sheetId, sheetName, targetFolderId, Undefined, delimiter, services)
            == ExportGoogleSheetsFile(sheetId, sheetName, targetFolderId, Str("CSV"), delimiter, services)
  {
    assert Lower("CSV") == "csv";
    assert Lower("csv") == "csv";
  }

  /**
    Once the checks and lookups pass, the CSV branch exports the named sheet
    of the looked-up spreadsheet with the delimiter argument as given, and
    logs its outcome.
  */
  lemma CsvBranch(sheetId: JsString, sheetName: JsString, targetFolderId: JsString,
                  format: string, delimiter: JsString, services: Services)
    requires !SomeParameterEmpty(sheetId, sheetName, targetFolderId)
    requires targetFolderId.text in services.folders && sheetId.text in services.files
    requires Lower(format) == "csv"
    ensures ExportGoogleSheetsFile(sheetId, sheetName, targetFolderId, Str(format), delimiter, services)
            == Returned(ExportToCsv(services.files[sheetId.text], sheetName.text,
                                    services.folders[targetFolderId.text], delimiter, services.createFile))
  {
  }

  /**
    The TSV branch never exports: once the checks and lookups pass, it
    always ends in the caught error of the undefined `exportToTSV_`.
  */
  lemma TsvAlwaysCaught(sheetId: JsString, sheetName: JsString, targetFolderId: JsString,
                        format: string, delimiter: JsString, services: Services)
    requires Lower(format) == "tsv"
    ensures var r := ExportGoogleSheetsFile(sheetId, sheetName, targetFolderId, Str(format), delimiter, services);
            r.Threw? || r == Returned(Err(NotDefined("exportToTSV_")))
  {
  }

  /**
    Any other format is caught with the unsupported-format message, which
    quotes the format as the caller wrote it; a null format fails in
    `toLowerCase` and is caught too.
  */
  lemma OtherFormatsCaught(sheetId: JsString, sheetName: JsString, targetFolderId: JsString,
                           toFormat: JsString, delimiter: JsString, services: Services)
    requires !SomeParameterEmpty(sheetId, sheetName, targetFolderId)
    requires targetFolderId.text in services.folders && sheetId.text in services.files
    requires toFormat.Null? || (toFormat.Str? && Lower(toFormat.text) != "csv" && Lower(toFormat.text) != "tsv")
    ensures var r := ExportGoogleSheetsFile(sheetId, sheetName, targetFolderId, toFormat, delimiter, services);
            && r.Returned? && r.logged.Err?
            && (toFormat.Null? ==> r.logged.error == FormatIsNull)
            && (toFormat.Str? ==> r.logged.error == UnsupportedFormat(UnsupportedFormatMessage(toFormat.text)))
  {
  }

  /** Whatever the arguments, the function never produces a TSV file. */
  lemma NeverExportsTsv(sheetId: JsString, sheetName: JsString, targetFolderId: JsString,
                        toFormat: JsString, delimiter: JsString, services: Services)
    ensures var r := ExportGoogleSheetsFile(sheetId, sheetName, targetFolderId, toFormat, delimiter, services);
            r.Returned? && r.logged.Ok? ==> r.logged.value.blob.contentType == "text/csv"
  {
    var r := ExportGoogleSheetsFile(sheetId, sheetName, targetFolderId, toFormat, delimiter, services);
    if r.Returned? && r.logged.Ok? {
      CsvMimeType();
    }
  }
}
