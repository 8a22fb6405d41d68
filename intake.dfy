/** Acceptance of a firmware package sent during `/upload` (`handle_upload_file`). */
module Intake {
  import opened Common
  import opened Text

  /** The attachment of a message; Telegram may leave either field out. */
  datatype Document = Document(mimeType: Option<string>, fileName: Option<string>)

  /** `UploadRaises`: the MIME type matched but there is no file name to lower-case. */
  datatype UploadVerdict = Accepted | Rejected | UploadRaises

  const ZipMime: string := "application/zip"

  /** `mime_type == "application/zip" and file_name.lower().endswith(".zip")`, short-circuiting. */
  function UploadCheck(doc: Document): (r: UploadVerdict)
    ensures r == UploadRaises <==> doc.mimeType == Some(ZipMime) && doc.fileName.None?
    ensures r == Accepted ==> doc.mimeType == Some(ZipMime) && EndsWith(Lower(doc.fileName.value), ".zip")
  {
    if doc.mimeType == Some(ZipMime) then
      match doc.fileName
      case None => UploadRaises
      case Some(name) => if EndsWith(Lower(name), ".zip") then Accepted else Rejected
    else Rejected
  }

  /** The name ends in `.zip` in any mix of letter cases. */
  predicate HasZipExtension(name: string) {
    var n := |name|;
    n >= 4 && name[n - 4] == '.' && (name[n - 3] == 'z' || name[n - 3] == 'Z')
    && (name[n - 2] == 'i' || name[n - 2] == 'I') && (name[n - 1] == 'p' || name[n - 1] == 'P')
  }

  lemma LowerEndsWithZip(name: string)
    ensures EndsWith(Lower(name), ".zip") <==> HasZipExtension(name)
  {
    var low := Lower(name);
    var n := |name|;
    if n >= 4 {
      var tail := low[n - 4..];
      assert tail == ".zip" <==> tail[0] == '.' && tail[1] == 'z' && tail[2] == 'i' && tail[3] == 'p' by {
        if tail[0] == '.' && tail[1] == 'z' && tail[2] == 'i' && tail[3] == 'p' {
          assert tail == [tail[0], tail[1], tail[2], tail[3]];
        }
      }
      assert tail[0] == LowerChar(name[n - 4]) && tail[1] == LowerChar(name[n - 3]);
      assert tail[2] == LowerChar(name[n - 2]) && tail[3] == LowerChar(name[n - 1]);
    }
  }

  /** A package is accepted exactly when its MIME type is `application/zip` and its
      name ends in `.zip`, whatever the case of the extension. */
  lemma UploadAcceptedIff(doc: Document)
    ensures UploadCheck(doc) == Accepted <==>
      doc.mimeType == Some(ZipMime) && doc.fileName.Some? && HasZipExtension(doc.fileName.value)
    ensures UploadCheck(doc) == UploadRaises <==> doc.mimeType == Some(ZipMime) && doc.fileName.None?
  {
    if doc.fileName.Some? {
      LowerEndsWithZip(doc.fileName.value);
    }
  }
}
