/**
 * The record the `/add` form posts to the sheet: the form's fields with
 * their defaults, and the receipt, which is the saved upload's path when a
 * file was uploaded and the form's `receipt` text otherwise.
 */
module Payload {
  import opened Wrappers

  /** `os.path.join("static", "receipts")` on a POSIX system. */
  const UploadFolder: string := "static/receipts"

  /** POSIX `os.path.join(a, b)`: an absolute `b` replaces `a`; otherwise one `/` is put between them if needed. */
  function JoinPath(a: string, b: string): (r: string)
    ensures |b| > 0 && b[0] == '/' ==> r == b
    ensures (|b| == 0 || b[0] != '/') && |a| > 0 && a[|a| - 1] != '/' ==> r == a + "/" + b
  {
    if |b| > 0 && b[0] == '/' then b
    else if a == [] || a[|a| - 1] == '/' then a + b
    else a + "/" + b
  }

  /** `s.replace("\\", "/")`. */
  function Slashed(s: string): (r: string)
    ensures |r| == |s|
    ensures forall i :: 0 <= i < |s| ==> r[i] == (if s[i] == '\\' then '/' else s[i])
  {
    seq(|s|, i requires 0 <= i < |s| => if s[i] == '\\' then '/' else s[i])
  }

  /** The URL path stored for an upload saved in `folder` under the file name `saved`. */
  function ReceiptPath(folder: string, saved: string): string
  {
    "/" + Slashed(JoinPath(folder, saved))
  }

  /** The path is absolute and uses forward slashes only. */
  lemma ReceiptPathShape(folder: string, saved: string)
    ensures |ReceiptPath(folder, saved)| > 0 && ReceiptPath(folder, saved)[0] == '/'
    ensures '\\' !in ReceiptPath(folder, saved)
  {
    var p := ReceiptPath(folder, saved);
    forall i | 0 <= i < |p| ensures p[i] != '\\' {
      if i > 0 {
        assert p[i] == Slashed(JoinPath(folder, saved))[i - 1];
      }
    }
  }

  /** A saved name that is not itself absolute ends up inside the folder. */
  lemma ReceiptPathInFolder(folder: string, saved: string)
    requires |folder| > 0 && folder[|folder| - 1] != '/'
    requires forall i :: 0 <= i < |folder| ==> folder[i] != '\\'
    requires |saved| == 0 || saved[0] != '/'
    ensures ReceiptPath(folder, saved) == "/" + folder + "/" + Slashed(saved)
  {
    var r := ReceiptPath(folder, saved);
    var q := "/" + folder + "/" + Slashed(saved);
    var j := JoinPath(folder, saved);
    assert j == folder + "/" + saved;
    assert |r| == |q|;
    forall i | 0 <= i < |r| ensures r[i] == q[i] {
      if 0 < i <= |folder| {
        assert r[i] == Slashed(j)[i - 1] && j[i - 1] == folder[i - 1];
      } else if i > |folder| + 1 {
        assert r[i] == Slashed(j)[i - 1] && j[i - 1] == saved[i - |folder| - 2];
      }
    }
  }

  /** The receipts folder is such a folder. */
  lemma UploadFolderPlain()
    ensures |UploadFolder| > 0 && UploadFolder[|UploadFolder| - 1] != '/'
    ensures forall i :: 0 <= i < |UploadFolder| ==> UploadFolder[i] != '\\'
  {
  }

  /**
   * The uploaded `receipt` file field: its client-side file name, the time
   * stamp (`utcnow().strftime("%Y%m%d%H%M%S")`) read when it is saved, and
   * `secure_filename`, which the model takes as given.
   */
  datatype Upload = Upload(filename: string, stamp: string)

  /** `form.get(key, default)`; the form maps each field name to its (first) value. */
  function FormGet(form: map<string, string>, key: string, default: string): (v: string)
    ensures key in form ==> v == form[key]
    ensures key !in form ==> v == default
  {
    if key in form then form[key] else default
  }

  /** `receipt_path`: "" unless a file with a non-empty name was uploaded. */
  function SavedReceipt(upload: Option<Upload>, secure: string -> string): (path: string)
    ensures upload.None? || upload.value.filename == "" <==> path == ""
  {
    if upload.Some? && upload.value.filename != "" then
      var saved := secure(upload.value.stamp + "_" + upload.value.filename);
      ReceiptPathShape(UploadFolder, saved);
      ReceiptPath(UploadFolder, saved)
    else ""
  }

  /** The value a field takes when the form does not send it. */
  function Default(key: string): string
  {
    if key == "amount" then "0" else if key == "currency" then "USD" else ""
  }

  const Fields: seq<string> :=
    ["date", "tool", "used_by", "department", "amount", "currency",
     "company", "status", "cycle", "renewal", "receipt", "desc"]

  /** The `payload` dictionary `add` sends to the sheet. */
  function BuildPayload(form: map<string, string>, upload: Option<Upload>, secure: string -> string): map<string, string>
  {
    var path := SavedReceipt(upload, secure);
    map[
      "date" := FormGet(form, "date", ""),
      "tool" := FormGet(form, "tool", ""),
      "used_by" := FormGet(form, "used_by", ""),
      "department" := FormGet(form, "department", ""),
      "amount" := FormGet(form, "amount", "0"),
      "currency" := FormGet(form, "currency", "USD"),
      "company" := FormGet(form, "company", ""),
      "status" := FormGet(form, "status", ""),
      "cycle" := FormGet(form, "cycle", ""),
      "renewal" := FormGet(form, "renewal", ""),
      "receipt" := if path != "" then path else FormGet(form, "receipt", ""),
      "desc" := FormGet(form, "desc", "")
    ]
  }

  // ---- What the payload guarantees ----

  /** The payload has exactly the twelve fields. */
  lemma PayloadFields(form: map<string, string>, upload: Option<Upload>, secure: string -> string)
    ensures BuildPayload(form, upload, secure).Keys == set k | k in Fields
  {
  }

  /**
   * Every field but the receipt is the form's value, or the field's default
   * ("0" for the amount, "USD" for the currency, "" for the rest) when the
   * form does not send it.
   */
  lemma PayloadFromForm(form: map<string, string>, upload: Option<Upload>, secure: string -> string, key: string)
    requires key in Fields && key != "receipt"
    ensures key in form ==> BuildPayload(form, upload, secure)[key] == form[key]
    ensures key !in form ==> BuildPayload(form, upload, secure)[key] == Default(key)
  {
  }

  /** With an uploaded file, the receipt is the saved file's path, absolute and with forward slashes. */
  lemma ReceiptOfUpload(form: map<string, string>, filename: string, stamp: string, secure: string -> string)
    requires filename != ""
    ensures var r := BuildPayload(form, Some(Upload(filename, stamp)), secure)["receipt"];
      r == ReceiptPath(UploadFolder, secure(stamp + "_" + filename)) && r[0] == '/' && '\\' !in r
  {
    ReceiptPathShape(UploadFolder, secure(stamp + "_" + filename));
  }

  /** Without a file, or with one whose name is empty, the receipt is the form's `receipt` text. */
  lemma ReceiptOfForm(form: map<string, string>, upload: Option<Upload>, secure: string -> string)
    requires upload.None? || upload.value.filename == ""
    ensures BuildPayload(form, upload, secure)["receipt"] == FormGet(form, "receipt", "")
  {
  }

  /** An empty form with no file gives the defaults everywhere. */
  lemma PayloadOfEmptyForm(secure: string -> string)
    ensures BuildPayload(map[], None, secure) == map[
      "date" := "", "tool" := "", "used_by" := "", "department" := "",
      "amount" := "0", "currency" := "USD", "company" := "", "status" := "",
      "cycle" := "", "renewal" := "", "receipt" := "", "desc" := ""]
  {
  }
}
