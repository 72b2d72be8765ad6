/**
 * The pure helpers of `OssTemplate`, the object-storage client: the upload
 * suffix check, object keys, the metadata and URL of an upload, and the
 * attachment record describing it. The storage calls themselves are not part
 * of this model; the ids from the id generator and the current time are
 * parameters.
 */
module Oss {
  import opened Wrappers
  import opened JavaLang
  import Decimal
  import Encoding
  import Dates

  const NULL_POINTER: string := "java.lang.NullPointerException"
  const NEGATIVE_ARRAY_SIZE: string := "java.lang.NegativeArraySizeException"
  const ARRAY_INDEX_OUT_OF_BOUNDS: string := "java.lang.ArrayIndexOutOfBoundsException"

  const ORIGINAL_NAME_KEY: string := "originalName"
  const SIZE_KEY: string := "size"
  const CONTENT_TYPE_KEY: string := "contentType"

  /** `noneMatch(lower::endsWith)` over the configured suffixes. */
  function NoneEndsWith(s: string, suffixes: seq<string>): (r: bool)
    ensures r <==> forall i | 0 <= i < |suffixes| :: !EndsWith(s, suffixes[i])
    decreases |suffixes|
  {
    if suffixes == [] then true
    else !EndsWith(s, suffixes[0]) && NoneEndsWith(s, suffixes[1..])
  }

  /**
   * `checkFileSuffix`: a file name is accepted when it is not blank and, lower
   * cased, ends with none of the configured (forbidden) suffixes.
   */
  function CheckFileSuffix(suffix: Option<string>, configured: seq<string>): (ok: bool)
    ensures IsBlankOrNull(suffix) ==> !ok
    ensures !IsBlankOrNull(suffix) ==>
      (ok <==> forall i | 0 <= i < |configured| :: !EndsWith(ToLowerAscii(suffix.value), configured[i]))
  {
    if IsBlankOrNull(suffix) then false else NoneEndsWith(ToLowerAscii(suffix.value), configured)
  }

  /** An upper-case letter in a name cannot hide it from a lower-case forbidden suffix. */
  lemma CheckIgnoresCase(name: string, configured: seq<string>)
    requires !IsBlank(name)
    ensures CheckFileSuffix(Some(name), configured) == CheckFileSuffix(Some(ToLowerAscii(name)), configured)
  {
    var lower := ToLowerAscii(name);
    assert ToLowerAscii(lower) == lower;
    assert !IsBlank(lower) by {
      var i :| 0 <= i < |name| && !IsWhitespace(name[i]);
      assert !IsWhitespace(lower[i]);
    }
  }

  /** commons-lang `StringUtils.substringAfterLast(str, separator)` for a non-empty separator. */
  function SubstringAfterLast(str: string, separator: string): (r: string)
    requires separator != ""
    ensures EndsWith(str, r)
  {
    if str == "" then str
    else
      var pos := LastIndexOf(str, separator);
      if pos == -1 || pos == |str| - |separator| then "" else str[pos + |separator|..]
  }

  /** The extension `generateObjectKey` keeps: the name from its last "." on, or "" when there is none. */
  function Extension(originalFilename: Option<string>): (ext: string)
    ensures ext != "" <==> !IsBlankOrNull(originalFilename) && Contains(originalFilename.value, ".")
    ensures ext != "" ==> ext[0] == '.' && '.' !in ext[1..]
    ensures ext != "" ==>
      var name := originalFilename.value;
      ext == name[LastIndexOf(name, ".")..]
  {
    if !IsBlankOrNull(originalFilename) && Contains(originalFilename.value, ".") then
      var name := originalFilename.value;
      var pos := LastIndexOf(name, ".");
      var after := SubstringAfterLast(name, ".");
      assert OccursAt(name, ".", pos) && name[pos] == '.';
      assert "." + after == name[pos..] by {
        if pos == |name| - 1 {
          assert name[pos..] == ".";
        }
      }
      assert forall j | pos < j < |name| :: name[j] != '.' by {
        forall j | pos < j < |name| ensures name[j] != '.' {
          assert !OccursAt(name, ".", j);
          assert name[j..j + 1] == [name[j]];
        }
      }
      "." + after
    else ""
  }

  /** `generateObjectKey`: a fresh id followed by the extension of the original name. */
  function ObjectKey(id: string, originalFilename: Option<string>): (key: string)
    ensures StartsWith(key, id) && key[|id|..] == Extension(originalFilename)
  {
    id + Extension(originalFilename)
  }

  /** `copyOf`: a new array holding the first `length` bytes of `source`. */
  method CopyOf(source: array<JByte>, length: int) returns (r: Result<array<JByte>, string>)
    ensures length < 0 ==> r == Err(NEGATIVE_ARRAY_SIZE)
    ensures 0 <= length && length > source.Length ==> r == Err(ARRAY_INDEX_OUT_OF_BOUNDS)
    ensures 0 <= length <= source.Length ==> r.Ok? && fresh(r.value) && r.value[..] == source[..length]
  {
    if length < 0 {
      return Err(NEGATIVE_ARRAY_SIZE);
    }
    var result := new JByte[length];
    if length > source.Length {
      return Err(ARRAY_INDEX_OUT_OF_BOUNDS);
    }
    var i := 0;
    while i < length
      invariant 0 <= i <= length
      invariant result[..i] == source[..i]
    {
      result[i] := source[i];
      i := i + 1;
    }
    assert result[..] == result[..length];
    r := Ok(result);
  }

  /** `buildMetadata`: the Base64 of the UTF-8 file name, the decimal size and the content type. */
  function Metadata(originalFilename: Option<string>, size: int, contentType: Option<string>)
    : (r: Result<map<string, Option<string>>, string>)
    ensures r.Err? <==> originalFilename.None?
    ensures r.Err? ==> r.error == NULL_POINTER
    ensures r.Ok? ==> r.value.Keys == {ORIGINAL_NAME_KEY, SIZE_KEY, CONTENT_TYPE_KEY}
    ensures r.Ok? ==> r.value[SIZE_KEY] == Some(Decimal.IntToString(size))
    ensures r.Ok? ==> r.value[CONTENT_TYPE_KEY] == contentType
  {
    if originalFilename.None? then Err(NULL_POINTER)
    else
      var encoded := Encoding.Base64Encode(Encoding.Utf8Encode(originalFilename.value));
      Ok(map[ORIGINAL_NAME_KEY := Some(encoded), SIZE_KEY := Some(Decimal.IntToString(size)), CONTENT_TYPE_KEY := contentType])
  }

  /** The metadata gives back the original file name and the size. */
  lemma MetadataRecoverable(originalFilename: string, size: int, contentType: Option<string>)
    ensures var m := Metadata(Some(originalFilename), size, contentType).value;
      m[ORIGINAL_NAME_KEY].Some?
      && Encoding.Base64Decode(m[ORIGINAL_NAME_KEY].value) == Some(Encoding.Utf8Encode(originalFilename))
      && Encoding.Utf8Decode(Encoding.Utf8Encode(originalFilename)) == Some(originalFilename)
      && Decimal.ParseInt(m[SIZE_KEY].value) == size
  {
    Encoding.Base64RoundTrip(Encoding.Utf8Encode(originalFilename));
    Encoding.Utf8RoundTrip(originalFilename);
    Decimal.IntRoundTrip(size);
  }

  /** `buildFileUrl`: "/" + bucket + "/" + key (a missing bucket name prints as "null"). */
  function FileUrl(bucketName: Option<string>, objectKey: string): (url: string)
    ensures StartsWith(url, "/" + Str(bucketName) + "/") && EndsWith(url, objectKey)
    ensures |url| == |Str(bucketName)| + |objectKey| + 2
  {
    "/" + Str(bucketName) + "/" + objectKey
  }

  /** Splits a file URL at the first "/" after the leading one: the inverse of `FileUrl`. */
  function SplitUrl(url: string): (r: Option<(string, string)>)
  {
    if url == [] || url[0] != '/' then None
    else
      var slash := IndexOf(url[1..], "/");
      if slash == -1 then None else Some((url[1..1 + slash], url[2 + slash..]))
  }

  /** A bucket name without "/" and the key can be read back from the URL. */
  lemma FileUrlSplits(bucketName: string, objectKey: string)
    requires '/' !in bucketName
    ensures SplitUrl(FileUrl(Some(bucketName), objectKey)) == Some((bucketName, objectKey))
  {
    var url := FileUrl(Some(bucketName), objectKey);
    var rest := url[1..];
    assert rest == bucketName + "/" + objectKey;
    assert OccursAt(rest, "/", |bucketName|);
    forall j | 0 <= j < |bucketName| ensures !OccursAt(rest, "/", j) {
      assert rest[j..j + 1] == [bucketName[j]];
    }
    assert IndexOf(rest, "/") == |bucketName|;
    assert url[1..1 + |bucketName|] == bucketName;
    assert url[2 + |bucketName|..] == objectKey;
  }

  /** The upload record (`Attachment`); the base entity's other fields stay null. */
  datatype Attachment = Attachment(
    id: string,
    name: string,
    originalName: Option<string>,
    url: string,
    size: string,
    createTime: Dates.DateTime)

  /** `buildAttachment` for an object key, given a fresh id and the current time. */
  function BuildAttachment(bucketName: Option<string>, objectKey: string, id: string,
                           originalFilename: Option<string>, size: int, now: Dates.DateTime): (a: Attachment)
    ensures a.name == objectKey && a.url == FileUrl(bucketName, objectKey) && a.originalName == originalFilename
    ensures a.size == Decimal.IntToString(size) && a.id == id && a.createTime == now
  {
    Attachment(id, objectKey, originalFilename, FileUrl(bucketName, objectKey), Decimal.IntToString(size), now)
  }
}
