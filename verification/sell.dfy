/**
 * The listing form (app/sell/page.tsx): image upload with its three
 * checks, the editable list of specification rows, the fold of those rows
 * into the listing's `specs` record, and the submit handler that hands the
 * draft to the store. The page's state cells are the fields of `SellForm`.
 *
 * Reading a file into a data URL is asynchronous in the source: the upload
 * handler only starts the reads, and each finished read appends its URL
 * later. Started reads are the `pendingReads` queue; `ReaderLoaded` is a
 * read finishing, in whatever order the reads finish.
 */
module Sell {
  import opened Collections
  import opened Domain
  import opened Text
  import opened Store

  const MaxFileSize: int := 5 * 1024 * 1024
  const MaxFiles: nat := 10

  const TooManyFiles: string := "Maximum 10 images allowed"
  const NotAnImage: string := "Only image files are allowed"
  const NoImages: string := "Please upload at least one image"

  /** A chosen file: its name, MIME type, size in bytes and the data URL a read yields. */
  datatype ImageFile = ImageFile(name: string, mime: string, size: int, dataUrl: string)

  /** A file passes both per-file checks. */
  predicate IsAcceptable(f: ImageFile) {
    StartsWith(f.mime, "image/") && f.size <= MaxFileSize
  }

  predicate IsRejected(f: ImageFile) {
    !IsAcceptable(f)
  }

  /** The message for a rejected file: the type check comes before the size check. */
  function RejectionFor(f: ImageFile): string {
    if !StartsWith(f.mime, "image/") then NotAnImage
    else "Images must be under 5MB (" + f.name + " is too large)"
  }

  function DataUrls(files: seq<ImageFile>): (r: seq<string>)
    ensures |r| == |files| && forall i :: 0 <= i < |files| ==> r[i] == files[i].dataUrl
  {
    seq(|files|, i requires 0 <= i < |files| => files[i].dataUrl)
  }

  /** What one upload event leaves behind: the reads it started and the error it shows. */
  datatype Upload = Upload(queued: seq<string>, error: string)

  /**
   * The effect of choosing `files` with `current` images already shown:
   * too many files in all starts nothing; otherwise the files up to the
   * first rejected one are read, and that file's message is shown.
   */
  function UploadOutcome(current: nat, files: seq<ImageFile>): (o: Upload)
    ensures |o.queued| <= |files|
    ensures forall i :: 0 <= i < |o.queued| ==> o.queued[i] == files[i].dataUrl
  {
    if current + |files| > MaxFiles then Upload([], TooManyFiles)
    else match FindIndex(files, IsRejected)
      case None => Upload(DataUrls(files), "")
      case Some(k) => Upload(DataUrls(files[..k]), RejectionFor(files[k]))
  }

  /**
   * An upload shows no error exactly when the count fits and every file is
   * acceptable, and then reads them all. A batch that would pass the limit
   * reads nothing and shows the limit message. Every file it reads is acceptable,
   * and when it starts any read, the images already shown plus the reads it
   * starts stay within the limit. When it stops at a file, that file is the
   * first rejected one and its message is the one shown.
   */
  lemma UploadOutcomeSpec(current: nat, files: seq<ImageFile>)
    ensures var o := UploadOutcome(current, files);
      && (o.error == "" <==> current + |files| <= MaxFiles && forall i :: 0 <= i < |files| ==> IsAcceptable(files[i]))
      && (o.error == "" ==> o.queued == DataUrls(files))
      && (current + |files| > MaxFiles ==> o.queued == [] && o.error == TooManyFiles)
      && (|o.queued| > 0 ==> current + |o.queued| <= MaxFiles)
      && |o.queued| <= |files|
      && (forall i :: 0 <= i < |o.queued| ==> IsAcceptable(files[i]) && o.queued[i] == files[i].dataUrl)
      && (o.error != "" && current + |files| <= MaxFiles ==>
            |o.queued| < |files| && IsRejected(files[|o.queued|]) && o.error == RejectionFor(files[|o.queued|]))
  {
    assert |TooManyFiles| > 0 && |NotAnImage| > 0;
    if current + |files| <= MaxFiles {
      match FindIndex(files, IsRejected)
      case None =>
      case Some(k) =>
        assert |RejectionFor(files[k])| > 0;
    }
  }

  /** A row of the specification editor. */
  datatype SpecRow = SpecRow(key: string, value: string)

  datatype SpecField = Key | Value

  /**
   * The `reduce` that turns the rows into the listing's specs: rows are
   * folded left to right, and a row with both a key and a value sets that
   * key, overriding an earlier row with the same key. The fold writes into
   * a plain object, where assigning a string to `__proto__` goes to the
   * prototype setter, which ignores it: that key never reaches the specs.
   */
  function SpecsToMap(rows: seq<SpecRow>): (m: map<string, string>)
    ensures forall k :: k in m ==> k != "" && k != ProtoKey && m[k] != ""
  {
    if |rows| == 0 then map[]
    else
      var acc := SpecsToMap(rows[..|rows| - 1]);
      var row := rows[|rows| - 1];
      if row.key != "" && row.value != "" && row.key != ProtoKey then acc[row.key := row.value] else acc
  }

  const ProtoKey: string := "__proto__"

  /** Row `i` is a complete row for key `k`, and `k` is a key an object assignment stores. */
  predicate Sets(rows: seq<SpecRow>, i: int, k: string) {
    0 <= i < |rows| && rows[i].key == k && k != "" && k != ProtoKey && rows[i].value != ""
  }

  /**
   * A key is in the specs exactly when some complete row has it (and it is
   * not `__proto__`), and its value is the one in the last such row.
   */
  lemma {:induction false} SpecsToMapSpec(rows: seq<SpecRow>, k: string)
    ensures k in SpecsToMap(rows) <==> exists i :: Sets(rows, i, k)
    ensures k in SpecsToMap(rows) ==> exists i ::
      && Sets(rows, i, k) && SpecsToMap(rows)[k] == rows[i].value
      && forall j :: i < j < |rows| ==> !Sets(rows, j, k)
  {
    if |rows| > 0 {
      var init := rows[..|rows| - 1];
      var n := |rows| - 1;
      SpecsToMapSpec(init, k);
      forall i | Sets(init, i, k) ensures Sets(rows, i, k) {
      }
      forall i | Sets(rows, i, k) && i < n ensures Sets(init, i, k) {
      }
      if Sets(rows, n, k) {
        assert SpecsToMap(rows)[k] == rows[n].value;
      } else if k in SpecsToMap(rows) {
        var i :| Sets(init, i, k) && SpecsToMap(init)[k] == init[i].value
          && forall j :: i < j < |init| ==> !Sets(init, j, k);
        assert Sets(rows, i, k) && SpecsToMap(rows)[k] == rows[i].value;
        forall j | i < j < |rows| ensures !Sets(rows, j, k) {
          if j < n {
            assert !Sets(init, j, k);
          }
        }
      }
    }
  }

  /** `formData` */
  datatype FormData = FormData(
    title: string,
    description: string,
    price: string,
    category: string,
    condition: string,
    brand: string)

  /** The image shown for a listing without uploads; `handleSubmit` never reaches it. */
  function PlaceholderImage(category: string, brand: string): string {
    "/placeholder.svg?height=400&width=400&query=" + category + " " + brand
  }

  class SellForm {
    var uploadedImages: seq<string>
    var pendingReads: seq<string>
    var uploadError: string
    var formData: FormData
    var specs: seq<SpecRow>
    var isSubmitting: bool
    var success: bool

    /** An empty form with one empty specification row. */
    constructor ()
      ensures uploadedImages == [] && pendingReads == [] && uploadError == ""
      ensures formData == FormData("", "", "", "", "", "")
      ensures specs == [SpecRow("", "")] && !isSubmitting && !success
    {
      uploadedImages := [];
      pendingReads := [];
      uploadError := "";
      formData := FormData("", "", "", "", "", "");
      specs := [SpecRow("", "")];
      isSubmitting := false;
      success := false;
    }

    /** The submit button's enabling condition. */
    predicate SubmitEnabled()
      reads this
    {
      !isSubmitting && formData.category != "" && formData.condition != "" && |uploadedImages| > 0
    }

    /** `setFormData({ ...formData, field: value })` */
    method EditForm(f: FormData)
      modifies this`formData
      ensures formData == f
    {
      formData := f;
    }

    /**
     * `handleImageUpload`: clears the error, refuses the whole batch when it
     * would exceed the limit, and otherwise starts a read for each file in
     * turn until it meets a file of the wrong type or size.
     */
    method HandleImageUpload(files: seq<ImageFile>)
      modifies this`uploadError, this`pendingReads
      ensures var o := UploadOutcome(|uploadedImages|, files);
        pendingReads == old(pendingReads) + o.queued && uploadError == o.error
    {
      uploadError := "";
      if |uploadedImages| + |files| > MaxFiles {
        uploadError := TooManyFiles;
        return;
      }
      var i := 0;
      while i < |files|
        invariant 0 <= i <= |files|
        invariant forall j :: 0 <= j < i ==> IsAcceptable(files[j])
        invariant pendingReads == old(pendingReads) + DataUrls(files[..i])
        invariant uploadError == ""
      {
        var file := files[i];
        if !StartsWith(file.mime, "image/") {
          uploadError := NotAnImage;
          assert FindIndex(files, IsRejected) == Some(i);
          return;
        }
        if file.size > MaxFileSize {
          uploadError := "Images must be under 5MB (" + file.name + " is too large)";
          assert FindIndex(files, IsRejected) == Some(i);
          return;
        }
        assert DataUrls(files[..i + 1]) == DataUrls(files[..i]) + [file.dataUrl];
        pendingReads := pendingReads + [file.dataUrl];
        i := i + 1;
      }
      assert files[..i] == files;
      assert FindIndex(files, IsRejected).None?;
    }

    /**
     * A started read finishes: its data URL joins the shown images. Images
     * shown and reads pending together neither gain nor lose a URL.
     */
    method ReaderLoaded(k: int)
      modifies this`uploadedImages, this`pendingReads
      ensures 0 <= k < |old(pendingReads)| ==>
        uploadedImages == old(uploadedImages) + [old(pendingReads)[k]]
        && pendingReads == RemoveIndex(old(pendingReads), k)
      ensures !(0 <= k < |old(pendingReads)|) ==>
        uploadedImages == old(uploadedImages) && pendingReads == old(pendingReads)
      ensures multiset(uploadedImages) + multiset(pendingReads)
           == multiset(old(uploadedImages)) + multiset(old(pendingReads))
    {
      if 0 <= k < |pendingReads| {
        var url := pendingReads[k];
        assert pendingReads == pendingReads[..k] + [url] + pendingReads[k + 1..];
        uploadedImages := uploadedImages + [url];
        pendingReads := RemoveIndex(pendingReads, k);
      }
    }

    /** `removeImage`: drops the image at `index`; any other index changes nothing. */
    method RemoveImage(index: int)
      modifies this`uploadedImages
      ensures uploadedImages == RemoveIndex(old(uploadedImages), index)
      ensures 0 <= index < |old(uploadedImages)| ==> |uploadedImages| == |old(uploadedImages)| - 1
    {
      uploadedImages := RemoveIndex(uploadedImages, index);
    }

    /** `addSpec`: appends an empty row. */
    method AddSpec()
      modifies this`specs
      ensures specs == old(specs) + [SpecRow("", "")]
      ensures SpecsToMap(specs) == SpecsToMap(old(specs))
    {
      specs := specs + [SpecRow("", "")];
      assert specs[..|specs| - 1] == old(specs);
    }

    /**
     * `removeSpec`: drops the row at `index`. The page offers it only while
     * there is more than one row, and then at least one row remains.
     */
    method RemoveSpec(index: int)
      modifies this`specs
      ensures specs == RemoveIndex(old(specs), index)
      ensures |old(specs)| > 1 ==> |specs| >= 1
    {
      specs := RemoveIndex(specs, index);
    }

    /**
     * `updateSpec`: sets one field of the row at `index`, which is always
     * the index of a shown row; an index past the rows would throw.
     */
    method UpdateSpec(index: int, field: SpecField, value: string)
      requires 0 <= index < |specs|
      modifies this`specs
      ensures specs == old(specs)[index := if field == Key then old(specs)[index].(key := value)
                                                         else old(specs)[index].(value := value)]
      ensures |specs| == |old(specs)|
    {
      var row := specs[index];
      specs := specs[index := if field == Key then row.(key := value) else row.(value := value)];
    }

    /**
     * `handleSubmit`: without an image it only shows the error; otherwise
     * it submits a draft built from the form, the images and the folded
     * specs, at the price the form's text parses to, and shows success.
     */
    method HandleSubmit(store: AppStore, price: int, newId: string, today: Timestamp)
      modifies this`uploadError, this`isSubmitting, this`success, store
      ensures |uploadedImages| == 0 ==>
        uploadError == NoImages && store.items == old(store.items)
        && isSubmitting == old(isSubmitting) && success == old(success)
      ensures |uploadedImages| > 0 ==>
        uploadError == old(uploadError) && success && !isSubmitting
        && (old(store.currentUser).None? ==> store.items == old(store.items))
        && (old(store.currentUser).Some? ==>
              store.items == old(store.items) + [NewListing(
                ItemDraft(formData.title, formData.description, price, formData.category,
                  uploadedImages, formData.condition, formData.brand, SpecsToMap(specs)),
                newId, today, old(store.currentUser).value)])
      ensures old(SubmitEnabled()) && old(store.currentUser).Some? ==>
        var it := store.items[|store.items| - 1];
        |it.images| > 0 && it.category != "" && it.condition != "" && it.status == Pending
      ensures store.currentUser == old(store.currentUser) && store.users == old(store.users)
      ensures store.reviews == old(store.reviews) && store.messages == old(store.messages)
      ensures store.conversations == old(store.conversations)
      ensures old(store.Consistent()) ==> store.Consistent()
    {
      if |uploadedImages| == 0 {
        uploadError := NoImages;
        return;
      }
      isSubmitting := true;
      var images := if |uploadedImages| > 0 then uploadedImages
                    else [PlaceholderImage(formData.category, formData.brand)];
      var draft := ItemDraft(formData.title, formData.description, price, formData.category,
        images, formData.condition, formData.brand, SpecsToMap(specs));
      store.AddItem(draft, newId, today);
      success := true;
      isSubmitting := false;
    }
  }
}
