/** The storage helpers (src/lib/supabase.js): an image is uploaded under a
    random name keeping its extension, and deleted by the last segment of
    its public URL. */
module Storage {
  import opened Wrappers
  import opened Strings

  /** `file.name.split('.').pop()`. */
  function Extension(name: string): string {
    Last(Split(name, '.'))
  }

  /** The extension is a tail of the name holding no '.'. */
  lemma ExtensionIsTail(name: string)
    ensures var e := Extension(name);
            '.' !in e && |e| <= |name| && e == name[|name| - |e|..]
  {
    var e := Extension(name);
    assert e == Last(Split(name, '.'));
    LastPieceIsTail(name, '.');
  }

  /** A '.' comes right before the extension unless it is the whole name, so
      the extension is the text after the last '.'. */
  lemma ExtensionAfterDot(name: string)
    ensures var e := Extension(name);
            |e| <= |name| && (|e| < |name| ==> name[|name| - |e| - 1] == '.')
  {
    var e := Extension(name);
    assert e == Last(Split(name, '.'));
    LastPieceIsTail(name, '.');
  }

  /** A name without a '.' is its own extension. */
  lemma ExtensionWithoutDot(name: string)
    requires '.' !in name
    ensures Extension(name) == name
  {
    LastPieceIsTail(name, '.');
  }

  /** `url.split('/').pop()`: the object name a URL points at. */
  function FileName(url: string): string {
    Last(Split(url, '/'))
  }

  /** The piece after the last separator of `x + sep + p`, for `p` free of
      the separator, is `p`. */
  lemma LastAfterSeparator(x: string, sep: char, p: string)
    requires sep !in p
    ensures Last(Split(x + [sep] + p, sep)) == p
  {
    var s := x + [sep] + p;
    var r := Last(Split(s, sep));
    LastPieceIsTail(s, sep);
    assert s[|s| - |p|..] == p;
    assert s[|s| - |p| - 1] == sep;
    assert |r| == |p|;
  }

  /** `${Math.random()}.${fileExt}`: the object's name in the bucket. */
  function ObjectPath(random: string, name: string): string {
    random + "." + Extension(name)
  }

  /** `getPublicUrl(filePath).publicUrl`, for the project's address `base`. */
  function PublicUrl(base: string, bucket: string, path: string): string {
    base + "/storage/v1/object/public/" + bucket + "/" + path
  }

  /** The public URL of an uploaded image names, to `deleteImage`, exactly
      the object it was stored as, so deleting it removes that upload. */
  lemma UploadThenDeleteNamesObject(base: string, bucket: string, random: string, name: string)
    requires '/' !in random && '/' !in name
    ensures FileName(PublicUrl(base, bucket, ObjectPath(random, name))) == ObjectPath(random, name)
    ensures ObjectPath(random, name) != ""
  {
    var path := ObjectPath(random, name);
    var ext := Extension(name);
    ExtensionIsTail(name);
    assert forall c :: c in ext ==> c in name;
    assert '/' !in path;
    assert PublicUrl(base, bucket, path) == (base + "/storage/v1/object/public/" + bucket) + ['/'] + path;
    LastAfterSeparator(base + "/storage/v1/object/public/" + bucket, '/', path);
    assert path[|random|] == '.';
  }

  /** A storage bucket with the names of the objects it holds. */
  class Bucket {
    const name: string
    var objects: set<string>

    constructor (bucket: string, stored: set<string>)
      ensures name == bucket && objects == stored
    {
      name := bucket;
      objects := stored;
    }

    /** `uploadImage(file)`: without a file it answers null; otherwise the
        file is stored under a random name with its extension, a failed
        upload throws (`Err`), and success answers the public URL. */
    method UploadImage(file: Option<string>, random: string, uploadFails: bool, base: string)
      returns (r: Result<Option<string>>)
      modifies this
      ensures file.None? ==> r == Ok(None) && objects == old(objects)
      ensures file.Some? && uploadFails ==> r.Err? && objects == old(objects)
      ensures file.Some? && !uploadFails ==>
                r == Ok(Some(PublicUrl(base, name, ObjectPath(random, file.value))))
                && objects == old(objects) + {ObjectPath(random, file.value)}
    {
      if file.None? {
        return Ok(None);
      }
      var path := random + "." + Extension(file.value);
      if uploadFails {
        return Err("upload failed");
      }
      objects := objects + {path};
      r := Ok(Some(PublicUrl(base, name, path)));
    }

    /** `deleteImage(url)`: nothing for an absent or empty URL or an empty
        last segment; otherwise the object named by the last segment is
        removed, and a failed removal is swallowed, so nothing is thrown. */
    method DeleteImage(url: Option<string>, removeFails: bool)
      modifies this
      ensures objects == (if url.Some? && url.value != "" && FileName(url.value) != "" && !removeFails
                          then old(objects) - {FileName(url.value)} else old(objects))
      ensures objects <= old(objects)
    {
      if url.None? || url.value == "" {
        return;
      }
      var fileName := FileName(url.value);
      if fileName == "" {
        return;
      }
      if !removeFails {
        objects := objects - {fileName};
      }
    }
  }
}
