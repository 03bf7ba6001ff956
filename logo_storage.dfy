/**
 * `LogoStorageProperties` and `LogoStorageService`: the configuration of the
 * logo store, the validations an uploaded logo must pass, and the bookkeeping of
 * the four logo fields of an application. The directory under the base path
 * is a map from file name to contents.
 */
module LogoStorage {
  import opened Wrappers
  import Text
  import JavaText
  import Entities

  // ----- LogoStorageProperties -----

  const DEFAULT_BASE_PATH: string := "/data/logos"

  /** `DEFAULT_MAX_SIZE_BYTES`: five mebibytes. */
  const DEFAULT_MAX_SIZE_BYTES: int := 5 * 1024 * 1024

  datatype Properties = Properties(basePath: string, maxSizeBytes: int)

  /**
   * The record's compact constructor: a null or blank base path becomes
   * `/data/logos`, a size limit that is not positive becomes the default.
   */
  function MakeProperties(basePath: Option<string>, maxSizeBytes: JavaText.Long): (p: Properties)
    ensures !JavaText.IsBlank(p.basePath) && p.maxSizeBytes > 0
    ensures basePath.Some? && !JavaText.IsBlank(basePath.value) ==> p.basePath == basePath.value
    ensures maxSizeBytes > 0 ==> p.maxSizeBytes == maxSizeBytes
  {
    assert DEFAULT_BASE_PATH[0] == '/';
    Properties(if basePath.None? || JavaText.IsBlank(basePath.value) then DEFAULT_BASE_PATH else basePath.value,
               if maxSizeBytes <= 0 then DEFAULT_MAX_SIZE_BYTES else maxSizeBytes)
  }

  /** Each field is defaulted on its own: the other argument has no influence on it. */
  lemma DefaultingIsPerField(b1: Option<string>, b2: Option<string>, m1: JavaText.Long, m2: JavaText.Long)
    ensures MakeProperties(b1, m1).basePath == MakeProperties(b1, m2).basePath
    ensures MakeProperties(b1, m1).maxSizeBytes == MakeProperties(b2, m1).maxSizeBytes
  {
  }

  /** Invalid settings fall back to the two defaults. */
  lemma DefaultsApply(basePath: Option<string>, maxSizeBytes: JavaText.Long)
    ensures (basePath.None? || JavaText.IsBlank(basePath.value)) ==> MakeProperties(basePath, maxSizeBytes).basePath == DEFAULT_BASE_PATH
    ensures maxSizeBytes <= 0 ==> MakeProperties(basePath, maxSizeBytes).maxSizeBytes == 5242880
  {
  }

  /** Building the record again from a built record changes nothing. */
  lemma MakePropertiesIdempotent(basePath: Option<string>, maxSizeBytes: JavaText.Long)
    ensures var p := MakeProperties(basePath, maxSizeBytes);
      MakeProperties(Some(p.basePath), p.maxSizeBytes) == p
  {
  }

  // ----- validation -----

  /** An uploaded `MultipartFile`: its reported size, content type, original name and bytes. */
  datatype Upload = Upload(size: nat, contentType: Option<string>, originalFilename: Option<string>, content: seq<bv8>)

  /** The IllegalArgumentException `validateFile` throws, by the values its message names. */
  datatype LogoError =
    | FileRequired
    | TooLarge(maxSizeBytes: int)
    | InvalidContentType(contentType: Option<string>)
    | InvalidExtension(extension: string)

  const ALLOWED_CONTENT_TYPES: set<string> :=
    {"image/png", "image/jpeg", "image/jpg", "image/gif", "image/svg+xml", "image/webp"}

  const ALLOWED_EXTENSIONS: set<string> := {".png", ".jpg", ".jpeg", ".gif", ".svg", ".webp"}

  /**
   * `getFileExtension`: the suffix from the last `.` inclusive, or "" for a
   * null name or one without a dot.
   */
  function FileExtension(filename: Option<string>): (r: string)
    ensures filename.None? || '.' !in filename.value ==> r == ""
    ensures filename.Some? && '.' in filename.value ==>
      var n := filename.value;
      && r != [] && r[0] == '.' && '.' !in r[1..]
      && |r| <= |n| && n[|n| - |r|..] == r
  {
    match filename
    case None => ""
    case Some(n) =>
      var lastDot := Text.LastIndexOf(n, '.');
      if lastDot == -1 then "" else n[lastDot..]
  }

  // The four checks, in the order `validateFile` makes them.
  predicate Present(file: Option<Upload>) { file.Some? && file.value.size != 0 }
  predicate WithinSize(f: Upload, props: Properties) { f.size <= props.maxSizeBytes }
  predicate TypeAllowed(f: Upload) { f.contentType.Some? && Text.ToLower(f.contentType.value) in ALLOWED_CONTENT_TYPES }
  predicate ExtensionAllowed(f: Upload)
  {
    f.originalFilename.None? || Text.ToLower(FileExtension(f.originalFilename)) in ALLOWED_EXTENSIONS
  }

  /** `validateFile`: `None` when the file passes, otherwise the first check it fails. */
  function ValidateFile(file: Option<Upload>, props: Properties): (r: Option<LogoError>)
    ensures r.None? <==> Present(file) && WithinSize(file.value, props) && TypeAllowed(file.value)
                         && ExtensionAllowed(file.value)
  {
    if file.None? || file.value.size == 0 then Some(FileRequired)
    else
      var f := file.value;
      if f.size > props.maxSizeBytes then Some(TooLarge(props.maxSizeBytes))
      else if f.contentType.None? || Text.ToLower(f.contentType.value) !in ALLOWED_CONTENT_TYPES then
        Some(InvalidContentType(f.contentType))
      else if f.originalFilename.Some? then
        var extension := Text.ToLower(FileExtension(f.originalFilename));
        if extension !in ALLOWED_EXTENSIONS then Some(InvalidExtension(extension)) else None
      else None
  }

  /** The validations run in order and the first failure is the one reported. */
  lemma ValidationOrder(file: Option<Upload>, props: Properties)
    ensures ValidateFile(file, props) == Some(FileRequired) <==> !Present(file)
    ensures ValidateFile(file, props) == Some(TooLarge(props.maxSizeBytes)) <==>
      Present(file) && !WithinSize(file.value, props)
    ensures ValidateFile(file, props).Some? && ValidateFile(file, props).value.InvalidContentType? <==>
      Present(file) && WithinSize(file.value, props) && !TypeAllowed(file.value)
    ensures ValidateFile(file, props).Some? && ValidateFile(file, props).value.InvalidExtension? <==>
      Present(file) && WithinSize(file.value, props) && TypeAllowed(file.value) && !ExtensionAllowed(file.value)
  {
  }

  /** A file without an original name is never rejected for its extension. */
  lemma NamelessFilePasses(f: Upload, props: Properties)
    requires f.originalFilename.None? && f.size != 0 && WithinSize(f, props) && TypeAllowed(f)
    ensures ValidateFile(Some(f), props).None?
  {
  }

  /** A name without a dot has the empty extension, which is rejected. */
  lemma DotlessNameRejected(f: Upload, props: Properties)
    requires f.originalFilename.Some? && '.' !in f.originalFilename.value
    requires f.size != 0 && WithinSize(f, props) && TypeAllowed(f)
    ensures ValidateFile(Some(f), props) == Some(InvalidExtension(""))
  {
    assert Text.ToLower("") == "";
  }

  // ----- file names -----

  /** The text of a random UUID: 36 characters, hexadecimal digits and dashes. */
  predicate IsUuidText(u: string)
  {
    |u| == 36 && forall i :: 0 <= i < |u| ==> u[i] == '-' || '0' <= u[i] <= '9' || 'a' <= u[i] <= 'f'
  }

  /** `generateSafeFileName`, given the random UUID. */
  function SafeFileName(uuid: string, originalFilename: Option<string>): (r: string)
    ensures |r| == |uuid| + |FileExtension(originalFilename)| && r[..|uuid|] == uuid
  {
    uuid + FileExtension(originalFilename)
  }

  /** The safe name has the extension of the original name, and is not blank. */
  lemma {:induction false} SafeFileNameKeepsExtension(uuid: string, originalFilename: Option<string>)
    requires IsUuidText(uuid)
    ensures FileExtension(Some(SafeFileName(uuid, originalFilename))) == FileExtension(originalFilename)
    ensures !JavaText.IsBlank(SafeFileName(uuid, originalFilename))
  {
    var ext := FileExtension(originalFilename);
    var n := uuid + ext;
    assert !JavaText.IsWhitespace(n[0]);
    assert '.' !in uuid;
    if ext == "" {
      assert n == uuid;
    } else {
      var k := Text.LastIndexOf(n, '.');
      assert n[|uuid|] == '.';
      forall i | |uuid| < i < |n| ensures n[i] != '.' {
        assert n[i] == ext[1..][i - |uuid| - 1];
      }
    }
  }

  /** `deleteLogoFile`: a null or blank path does nothing, otherwise the file is removed if present. */
  function DeleteFile(disk: map<string, seq<bv8>>, logoPath: Option<string>): (d: map<string, seq<bv8>>)
    ensures logoPath.Some? && !JavaText.IsBlank(logoPath.value) ==> logoPath.value !in d
    ensures forall name :: name in d <==> name in disk && !(logoPath == Some(name) && !JavaText.IsBlank(name))
    ensures forall name :: name in d ==> d[name] == disk[name]
  {
    if logoPath.None? || JavaText.IsBlank(logoPath.value) then disk else disk - {logoPath.value}
  }

  class LogoStorageService {
    const props: Properties
    /** The files under the base path, by name. */
    var disk: map<string, seq<bv8>>

    constructor (props: Properties, disk: map<string, seq<bv8>>)
      ensures this.props == props && this.disk == disk
    {
      this.props := props;
      this.disk := disk;
    }

    /**
     * `saveLogo`: a file that fails validation changes nothing; otherwise the
     * old file is deleted, the upload is stored under a fresh safe name and
     * the four logo fields describe it.
     */
    method SaveLogo(app: Entities.Application, file: Option<Upload>, uuid: string)
      returns (r: Result<Entities.Application, LogoError>)
      requires IsUuidText(uuid)
      modifies this`disk, app`logoPath, app`logoContentType, app`logoOriginalName, app`logoSizeBytes
      ensures ValidateFile(file, props).Some? ==>
        && r == Err(ValidateFile(file, props).value)
        && disk == old(disk) && app.logoPath == old(app.logoPath) && app.logoContentType == old(app.logoContentType)
        && app.logoOriginalName == old(app.logoOriginalName) && app.logoSizeBytes == old(app.logoSizeBytes)
      ensures ValidateFile(file, props).None? ==>
        var f := file.value;
        var safe := SafeFileName(uuid, f.originalFilename);
        && r == Ok(app)
        && app.logoPath == Some(safe) && app.logoContentType == f.contentType
        && app.logoOriginalName == f.originalFilename && app.logoSizeBytes == Some(f.size)
        && disk == DeleteFile(old(disk), old(app.logoPath))[safe := f.content]
        && LoadLogoBytes(app.logoPath) == Some(f.content) && LogoExists(app.logoPath)
    {
      var invalid := ValidateFile(file, props);
      if invalid.Some? {
        return Err(invalid.value);
      }
      var f := file.value;
      disk := DeleteFile(disk, app.logoPath);
      var safe := SafeFileName(uuid, f.originalFilename);
      SafeFileNameKeepsExtension(uuid, f.originalFilename);
      disk := disk[safe := f.content];
      app.logoPath := Some(safe);
      app.logoContentType := f.contentType;
      app.logoOriginalName := f.originalFilename;
      app.logoSizeBytes := Some(f.size);
      r := Ok(app);
    }

    /** `deleteLogo`: the referenced file goes, and all four fields become null either way. */
    method DeleteLogo(app: Entities.Application) returns (r: Entities.Application)
      modifies this`disk, app`logoPath, app`logoContentType, app`logoOriginalName, app`logoSizeBytes
      ensures r == app
      ensures app.logoPath.None? && app.logoContentType.None? && app.logoOriginalName.None? && app.logoSizeBytes.None?
      ensures disk == DeleteFile(old(disk), old(app.logoPath))
      ensures !LogoExists(old(app.logoPath))
    {
      if app.logoPath.Some? {
        disk := DeleteFile(disk, app.logoPath);
      }
      app.logoPath, app.logoContentType, app.logoOriginalName, app.logoSizeBytes := None, None, None, None;
      r := app;
    }

    /** `loadLogoBytes`: null for a null or blank path or a missing file, the stored bytes otherwise. */
    function LoadLogoBytes(logoPath: Option<string>): (r: Option<seq<bv8>>)
      reads this
      ensures logoPath.None? || JavaText.IsBlank(logoPath.value) ==> r.None?
      ensures r.Some? <==> logoPath.Some? && !JavaText.IsBlank(logoPath.value) && logoPath.value in disk
      ensures r.Some? ==> r.value == disk[logoPath.value]
    {
      if logoPath.None? || JavaText.IsBlank(logoPath.value) then None
      else if logoPath.value !in disk then None
      else Some(disk[logoPath.value])
    }

    /** `logoExists`. */
    function LogoExists(logoPath: Option<string>): (r: bool)
      reads this
      ensures r <==> LoadLogoBytes(logoPath).Some?
      ensures r ==> logoPath.Some? && logoPath.value in disk
    {
      if logoPath.None? || JavaText.IsBlank(logoPath.value) then false else logoPath.value in disk
    }
  }
}
