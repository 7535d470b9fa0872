/**
 * The key rule on a few typical file names. Each name is a parameter fixed
 * by the precondition, so that the verifier reasons from the characterisation
 * lemmas instead of unfolding the rule on a literal.
 */
module NamingExamples {

  import opened Naming

  /** `IMAGE.JPG` goes to `jpg`: the extension is lowercased. */
  lemma UppercaseExtensionExample(name: string)
    requires name == "IMAGE.JPG"
    ensures ExtensionKey(name) == "jpg"
  {
    ImageDot(name);
    KeyOfExtension(name, 5);
    JpgLowered(name[6..]);
  }

  lemma ImageDot(name: string)
    requires name == "IMAGE.JPG"
    ensures IsExtensionDot(name, 5) && name[6..] == "JPG"
  {
    assert forall k :: 5 < k < |name| ==> name[k] != '.' && name[k] != '/';
    assert forall k :: 0 <= k < 5 ==> name[k] != '/';
    assert name[0] != '.';
  }

  lemma JpgLowered(ext: string)
    requires ext == "JPG"
    ensures AsciiLower(ext) == "jpg"
  {
    assert forall i :: 0 <= i < |ext| ==> LowerChar(ext[i]) == "jpg"[i];
  }

  /** `archive.tar.gz` goes to `gz`: only the text after the last dot counts. */
  lemma DoubleExtensionExample(name: string)
    requires name == "archive.tar.gz"
    ensures ExtensionKey(name) == "gz"
  {
    ArchiveDot(name);
    KeyOfExtension(name, 11);
    GzLowered(name[12..]);
  }

  lemma ArchiveDot(name: string)
    requires name == "archive.tar.gz"
    ensures IsExtensionDot(name, 11) && name[12..] == "gz"
  {
    assert forall k :: 11 < k < |name| ==> name[k] != '.' && name[k] != '/';
    assert forall k :: 0 <= k < 11 ==> name[k] != '/';
    assert name[0] != '.';
  }

  lemma GzLowered(ext: string)
    requires ext == "gz"
    ensures AsciiLower(ext) == "gz"
  {
    assert forall i :: 0 <= i < |ext| ==> LowerChar(ext[i]) == ext[i];
  }

  /** `README` has no dot at all. */
  lemma PlainNameExample(name: string)
    requires name == "README"
    ensures ExtensionKey(name) == NoExtension
  {
    forall i | 0 <= i < |name| - 1
      ensures !IsExtensionDot(name, i)
    {
      assert name[i] != '.';
    }
    KeyWithoutExtension(name);
  }

  /** `.bashrc` has only a leading dot, so it has no extension. */
  lemma DotfileExample(name: string)
    requires name == ".bashrc"
    ensures ExtensionKey(name) == NoExtension
  {
    forall i | 0 <= i < |name| - 1
      ensures !IsExtensionDot(name, i)
    {
      assert name[i] == '.' ==> i == 0;
    }
    KeyWithoutExtension(name);
  }

  /** `file.` ends in its only dot: the extension is empty. */
  lemma TrailingDotExample(name: string)
    requires name == "file."
    ensures ExtensionKey(name) == NoExtension
  {
    forall i | 0 <= i < |name| - 1
      ensures !IsExtensionDot(name, i)
    {
      assert name[i] != '.';
    }
    KeyWithoutExtension(name);
  }

  /**
   * The sentinel is not reserved: a file whose extension is `no_extension`
   * (in any case) shares the folder of the files that have none.
   */
  lemma SentinelIsAlsoAnExtension(name: string)
    requires name == "notes.NO_EXTENSION"
    ensures ExtensionKey(name) == NoExtension
  {
    SentinelDot(name);
    KeyOfExtension(name, 5);
    SentinelLowered(name[6..]);
  }

  lemma SentinelDot(name: string)
    requires name == "notes.NO_EXTENSION"
    ensures IsExtensionDot(name, 5) && name[6..] == "NO_EXTENSION"
  {
    assert forall k :: 5 < k < |name| ==> name[k] != '.' && name[k] != '/';
    assert forall k :: 0 <= k < 5 ==> name[k] != '/';
    assert name[0] != '.';
  }

  lemma SentinelLowered(ext: string)
    requires ext == "NO_EXTENSION"
    ensures AsciiLower(ext) == NoExtension
  {
    assert forall i :: 0 <= i < |ext| ==> LowerChar(ext[i]) == NoExtension[i];
  }
}
