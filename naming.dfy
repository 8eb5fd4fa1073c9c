/**
 * The storage-name builder of the upload route, with the random hex and the
 * formatted timestamp passed in, the path join that places the name under the
 * upload folder, and a parser for the names it produces.
 */
module Naming {
  import opened Wrappers
  import opened FileTypes

  /** The directory uploads are written to. */
  const UploadFolder: string := "uploads"

  predicate IsHexDigit(c: char) {
    '0' <= c <= '9' || 'a' <= c <= 'f'
  }

  predicate IsDigit(c: char) {
    '0' <= c <= '9'
  }

  /** The shape of `uuid4().hex`: 32 lower-case hexadecimal digits. */
  predicate IsUuidHex(h: string) {
    |h| == 32 && forall i :: 0 <= i < |h| ==> IsHexDigit(h[i])
  }

  /** The shape of a `%Y%m%d%H%M%S` timestamp for years 1000 to 9999: 14 digits. */
  predicate IsTimestamp(t: string) {
    |t| == 14 && forall i :: 0 <= i < |t| ==> IsDigit(t[i])
  }

  /**
   * `generate_safe_filename`: `hex + "_" + timestamp + "." + ext`, where `ext`
   * is the lower-cased text after the last '.' of `filename`. The generated
   * name starts with the random part, and its own extension is exactly the
   * lower-cased extension of the input, whatever `hex` and `timestamp` hold.
   */
  function SafeFilename(filename: string, hex: string, timestamp: string): (name: string)
    requires '.' in filename
    ensures |hex| < |name| && name[..|hex|] == hex
    ensures Extension(name) == Some(Lower(Extension(filename).value))
  {
    var ext := Lower(Extension(filename).value);
    ExtensionOfJoin(hex + "_" + timestamp, ext);
    hex + "_" + timestamp + "." + ext
  }

  /** The three parts of a generated storage name. */
  datatype StorageName = StorageName(hex: string, timestamp: string, ext: string)

  /**
   * Reads a storage name back into its parts, when it has the shape
   * `{32 hex digits}_{14 digits}.{ext}` with no '.' in `ext`.
   */
  function ParseStorageName(name: string): (r: Option<StorageName>)
    ensures r.Some? ==> IsUuidHex(r.value.hex) && IsTimestamp(r.value.timestamp) && '.' !in r.value.ext
    ensures r.Some? ==> name == r.value.hex + "_" + r.value.timestamp + "." + r.value.ext
  {
    if |name| >= 48 && name[32] == '_' && name[47] == '.'
       && IsUuidHex(name[..32]) && IsTimestamp(name[33..47]) && '.' !in name[48..]
    then
      assert name == name[..32] + "_" + name[33..47] + "." + name[48..];
      Some(StorageName(name[..32], name[33..47], name[48..]))
    else None
  }

  /** Parsing a generated name gives back the random part, the timestamp and the validated extension. */
  lemma ParseSafeFilename(filename: string, hex: string, timestamp: string)
    requires '.' in filename
    requires IsUuidHex(hex) && IsTimestamp(timestamp)
    ensures ParseStorageName(SafeFilename(filename, hex, timestamp))
            == Some(StorageName(hex, timestamp, Lower(Extension(filename).value)))
  {
    var ext := Lower(Extension(filename).value);
    var name := SafeFilename(filename, hex, timestamp);
    assert name == hex + "_" + timestamp + "." + ext;
    assert name[..32] == hex;
    assert name[33..47] == timestamp;
    assert name[48..] == ext;
  }

  /**
   * Two calls whose random parts differ but have the same length (as every
   * `uuid4().hex` does) give different names, whatever the filenames and
   * timestamps.
   */
  lemma SafeFilenamesDistinct(f1: string, hex1: string, ts1: string, f2: string, hex2: string, ts2: string)
    requires '.' in f1 && '.' in f2
    requires |hex1| == |hex2| && hex1 != hex2
    ensures SafeFilename(f1, hex1, ts1) != SafeFilename(f2, hex2, ts2)
  {
    var n1, n2 := SafeFilename(f1, hex1, ts1), SafeFilename(f2, hex2, ts2);
    assert n1[..|hex1|] != n2[..|hex2|];
  }

  /**
   * With well-formed random parts and timestamps, a generated name determines
   * its random part, its timestamp and its extension.
   */
  lemma SafeFilenameInjective(f1: string, hex1: string, ts1: string, f2: string, hex2: string, ts2: string)
    requires '.' in f1 && '.' in f2
    requires IsUuidHex(hex1) && IsTimestamp(ts1) && IsUuidHex(hex2) && IsTimestamp(ts2)
    requires SafeFilename(f1, hex1, ts1) == SafeFilename(f2, hex2, ts2)
    ensures hex1 == hex2 && ts1 == ts2
    ensures Lower(Extension(f1).value) == Lower(Extension(f2).value)
  {
    ParseSafeFilename(f1, hex1, ts1);
    ParseSafeFilename(f2, hex2, ts2);
  }

  /**
   * The name is built from the validated extension: when the input passes the
   * extension check, so does the generated name, with the same lower-cased
   * extension, drawn from the allow-set.
   */
  lemma SafeFilenameStaysAllowed(filename: string, hex: string, timestamp: string)
    requires AllowedFile(filename)
    ensures AllowedFile(SafeFilename(filename, hex, timestamp))
    ensures Extension(SafeFilename(filename, hex, timestamp)).value in AllowedExtensions
    ensures Extension(SafeFilename(filename, hex, timestamp)).value == Lower(Extension(filename).value)
  {
    LowerIdempotent(Extension(filename).value);
  }

  /**
   * `os.path.join(folder, name)`: `name` alone when it is absolute, otherwise
   * `name` appended to `folder`, with a '/' between them unless `folder` is
   * empty or already ends in one.
   */
  function JoinPath(folder: string, name: string): (path: string)
    ensures |name| <= |path| && path[|path| - |name|..] == name
    ensures (|name| == 0 || name[0] != '/') ==> |folder| <= |path| && path[..|folder|] == folder
  {
    if |name| > 0 && name[0] == '/' then name
    else if folder == [] || folder[|folder| - 1] == '/' then folder + name
    else folder + "/" + name
  }

  /** No allowed extension contains a '/'. */
  lemma NoSlashInAllowedExtension(e: string)
    requires e in AllowedExtensions
    ensures '/' !in e
  {
    if e == "pdf" {
      assert e == ['p', 'd', 'f'];
    } else if e == "png" {
      assert e == ['p', 'n', 'g'];
    } else if e == "jpg" {
      assert e == ['j', 'p', 'g'];
    } else if e == "jpeg" {
      assert e == ['j', 'p', 'e', 'g'];
    } else {
      assert e == ['g', 'i', 'f'];
    }
  }

  /**
   * A name generated from an accepted filename, a uuid hex and a timestamp
   * contains no '/', so its path is the name directly inside the upload folder.
   */
  lemma StoragePathInsideUploadFolder(filename: string, hex: string, timestamp: string)
    requires AllowedFile(filename) && IsUuidHex(hex) && IsTimestamp(timestamp)
    ensures '/' !in SafeFilename(filename, hex, timestamp)
    ensures JoinPath(UploadFolder, SafeFilename(filename, hex, timestamp))
            == UploadFolder + "/" + SafeFilename(filename, hex, timestamp)
  {
    var ext := Lower(Extension(filename).value);
    var name := SafeFilename(filename, hex, timestamp);
    NoSlashInAllowedExtension(ext);
    assert '/' !in hex by {
      forall i | 0 <= i < |hex| ensures hex[i] != '/' { assert IsHexDigit(hex[i]); }
    }
    assert '/' !in timestamp by {
      forall i | 0 <= i < |timestamp| ensures timestamp[i] != '/' { assert IsDigit(timestamp[i]); }
    }
    assert name == hex + "_" + timestamp + "." + ext;
    assert name[0] == hex[0] && IsHexDigit(hex[0]);
  }
}
