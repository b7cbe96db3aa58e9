/**
 * The file list: which uploads are accepted, appending them, selecting, deleting by id,
 * and the sample document written on first run.
 */
module Files {
  import opened Wrappers
  import opened Text

  datatype File = File(id: string, name: string, content: string, size: nat)

  /**
   * One file of an upload batch: its name, MIME type and size, the result of reading
   * its text (`None` when `file.text()` throws) and the id generated for it.
   */
  datatype Upload = Upload(name: string, mimeType: string, size: nat, text: Option<string>, id: string)

  /** The upload filter: the type mentions "text", or the name ends in ".txt" or ".md". */
  predicate IsTextFile(name: string, mimeType: string) {
    Contains(mimeType, "text") || EndsWith(name, ".txt") || EndsWith(name, ".md")
  }

  /** The file an upload becomes: none when it is not a text file or cannot be read. */
  function Admit(u: Upload): (r: Option<File>)
    ensures r.Some? <==> IsTextFile(u.name, u.mimeType) && u.text.Some?
    ensures r.Some? ==> r.value == File(u.id, u.name, u.text.value, u.size)
  {
    if !IsTextFile(u.name, u.mimeType) then None
    else match u.text
      case None => None
      case Some(content) => Some(File(u.id, u.name, content, u.size))
  }

  /** The files a batch adds, in the batch's order. */
  function AcceptedFiles(batch: seq<Upload>): (r: seq<File>)
    ensures |r| <= |batch|
  {
    if batch == [] then []
    else
      var rest := AcceptedFiles(batch[1..]);
      match Admit(batch[0])
      case None => rest
      case Some(f) => [f] + rest
  }

  /** The accepted files are exactly the files the batch's uploads are admitted as. */
  lemma {:induction false} AcceptedFilesMembers(batch: seq<Upload>)
    ensures forall f :: f in AcceptedFiles(batch) <==> exists u :: u in batch && Admit(u) == Some(f)
  {
    if batch != [] {
      AcceptedFilesMembers(batch[1..]);
      assert forall u :: u in batch <==> u == batch[0] || u in batch[1..];
    }
  }

  /** The batch is filtered piece by piece: the accepted files of a concatenation are concatenated. */
  lemma {:induction false} AcceptedFilesAppend(a: seq<Upload>, b: seq<Upload>)
    ensures AcceptedFiles(a + b) == AcceptedFiles(a) + AcceptedFiles(b)
  {
    if a == [] {
      assert a + b == b;
    } else {
      assert (a + b)[0] == a[0] && (a + b)[1..] == a[1..] + b;
      AcceptedFilesAppend(a[1..], b);
    }
  }

  /** A rejected or unreadable file drops out of the batch and every other file is still taken. */
  lemma RejectedDoesNotBlock(before: seq<Upload>, u: Upload, after: seq<Upload>)
    requires Admit(u).None?
    ensures AcceptedFiles(before + [u] + after) == AcceptedFiles(before) + AcceptedFiles(after)
  {
    AcceptedFilesAppend(before + [u], after);
    AcceptedFilesAppend(before, [u]);
    RejectedAlone(u);
    assert AcceptedFiles(before) + [] == AcceptedFiles(before);
  }

  /** A batch of one rejected or unreadable file adds nothing. */
  lemma RejectedAlone(u: Upload)
    requires Admit(u).None?
    ensures AcceptedFiles([u]) == []
  {
    assert [u][1..] == [];
  }

  /** "image.png" of type "image/png" is not a text file. */
  lemma ImageRejected()
    ensures !IsTextFile("image.png", "image/png")
  {
    var t: string := "image/png";
    assert 't' !in t;
    forall i | 0 <= i <= |t| - 4 ensures !OccursAt(t, "text", i) {
      assert t[i] in t;
    }
    assert "image.png"[5..] == ".png" && ".png"[1] != ".txt"[1];
    assert "image.png"[6..] == "png" && "png"[0] != ".md"[0];
  }

  /** `[...prev, ...newFiles]`. */
  function AppendFiles(prev: seq<File>, newFiles: seq<File>): (r: seq<File>)
    ensures |r| == |prev| + |newFiles| && r[..|prev|] == prev && r[|prev|..] == newFiles
  {
    prev + newFiles
  }

  /** `files.filter(f => f.id !== id)`. */
  function RemoveById(files: seq<File>, id: string): (r: seq<File>)
    ensures |r| <= |files|
    ensures forall f :: f in r <==> f in files && f.id != id
  {
    if files == [] then []
    else
      var rest := RemoveById(files[1..], id);
      assert forall f :: f in files <==> f == files[0] || f in files[1..];
      if files[0].id != id then [files[0]] + rest else rest
  }

  /** Deleting keeps the other entries in their order: it works piece by piece on a concatenation. */
  lemma {:induction false} RemoveByIdAppend(a: seq<File>, b: seq<File>, id: string)
    ensures RemoveById(a + b, id) == RemoveById(a, id) + RemoveById(b, id)
  {
    if a == [] {
      assert a + b == b;
    } else {
      assert (a + b)[0] == a[0] && (a + b)[1..] == a[1..] + b;
      RemoveByIdAppend(a[1..], b, id);
    }
  }

  /** Deleting an id that no entry has changes nothing. */
  lemma {:induction false} RemoveByIdAbsent(files: seq<File>, id: string)
    requires forall f :: f in files ==> f.id != id
    ensures RemoveById(files, id) == files
  {
    if files != [] {
      assert forall f :: f in files[1..] ==> f in files;
      RemoveByIdAbsent(files[1..], id);
      assert [files[0]] + files[1..] == files;
    }
  }

  /** Deleting the same id twice is deleting it once. */
  lemma RemoveByIdIdempotent(files: seq<File>, id: string)
    ensures RemoveById(RemoveById(files, id), id) == RemoveById(files, id)
  {
    RemoveByIdAbsent(RemoveById(files, id), id);
  }

  /** `selectedFileId` read as a JavaScript condition: `null` and the empty string are false. */
  predicate IsSelected(selected: Option<string>) {
    selected.Some? && selected.value != ""
  }

  /** The selection after a delete: cleared exactly when it was the deleted id. */
  function SelectionAfterDelete(selected: Option<string>, id: string): (r: Option<string>)
    ensures r == None <==> selected == None || selected == Some(id)
    ensures r != None ==> r == selected
  {
    if selected == Some(id) then None else selected
  }

  /** The selection after an upload: the first new file when nothing was selected. */
  function SelectionAfterUpload(selected: Option<string>, newFiles: seq<File>): (r: Option<string>)
    ensures IsSelected(selected) || newFiles == [] ==> r == selected
    ensures !IsSelected(selected) && newFiles != [] ==> r == Some(newFiles[0].id)
  {
    if !IsSelected(selected) && |newFiles| > 0 then Some(newFiles[0].id) else selected
  }
}
