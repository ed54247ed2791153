/**
 * The logic of components/ChatArea.tsx, lifted out of the React component:
 * validation and accumulation of image attachments (`ImageUpload`), the
 * transcript updates of `handleSubmit`, and when Enter or the Send button
 * submits. `compressImage` (canvas drawing) is a parameter that may fail; ids
 * from `crypto.randomUUID` and the server's reply are parameters.
 */
module ChatArea {
  import opened Wrappers
  import opened Text

  const FastColor := "bg-green-100 text-green-800 hover:bg-green-200"
  const BalancedColor := "bg-blue-100 text-blue-800 hover:bg-blue-200"
  const ThoroughColor := "bg-purple-100 text-purple-800 hover:bg-purple-200"
  const DefaultSpeedColor := "bg-gray-100 text-gray-800 hover:bg-gray-200"

  /** `getSpeedBadgeColor`: one class per known speed, gray for any other. */
  function SpeedBadgeColor(speed: string): (c: string)
    ensures speed == "fast" <==> c == FastColor
    ensures speed == "balanced" <==> c == BalancedColor
    ensures speed == "thorough" <==> c == ThoroughColor
    ensures speed !in {"fast", "balanced", "thorough"} <==> c == DefaultSpeedColor
  {
    match speed
    case "fast" => FastColor
    case "balanced" => BalancedColor
    case "thorough" => ThoroughColor
    case _ => DefaultSpeedColor
  }

  /** A selected file: its name, its MIME type (`file.type`) and its size in bytes. */
  datatype File = File(name: string, mimeType: string, size: int)

  /** An attachment of a message: the compressed data URL and the original file's type, name and size. */
  datatype ImageData = ImageData(data: string, mimeType: string, name: string, size: int)

  const AllowedImageTypes: seq<string> := ["image/png", "image/jpeg", "image/jpg", "image/gif"]

  const MaxFileSize := 5 * 1024 * 1024

  const TypeError := "Please upload a PNG, JPG, or GIF image."
  const SizeError := "File size must be less than 5MB."
  const InvalidFile := "Invalid file"
  const ProcessingError := "Failed to process image"

  datatype Validation = Validation(valid: bool, error: Option<string>)

  /**
   * `validateImageFile`: valid exactly when the type is allowed and the size
   * is at most 5 MiB. The type is checked first, so a file failing both
   * reports the type.
   */
  function ValidateImageFile(file: File): (v: Validation)
    ensures v.valid <==> file.mimeType in AllowedImageTypes && file.size <= MaxFileSize
    ensures v.valid ==> v.error == None
    ensures file.mimeType !in AllowedImageTypes ==> v.error == Some(TypeError)
    ensures file.mimeType in AllowedImageTypes && file.size > MaxFileSize ==> v.error == Some(SizeError)
  {
    if file.mimeType !in AllowedImageTypes then Validation(false, Some(TypeError))
    else if file.size > MaxFileSize then Validation(false, Some(SizeError))
    else Validation(true, None)
  }

  /** `validation.error || 'Invalid file'`. */
  function ErrorText(v: Validation): string {
    if v.error.Some? && v.error.value != "" then v.error.value else InvalidFile
  }

  /** The attachment made of a file and its compressed data. */
  function ImageOf(file: File, data: string): ImageData {
    ImageData(data, file.mimeType, file.name, file.size)
  }

  /** Whether a file ends up attached: it is valid and it compresses. */
  predicate Attaches(file: File, compress: File -> Option<string>) {
    ValidateImageFile(file).valid && compress(file).Some?
  }

  /** The attachments the loop of `handleFileSelect` collects, in the order of the files. */
  function Accepted(files: seq<File>, compress: File -> Option<string>): seq<ImageData> {
    if files == [] then []
    else
      var file := files[|files| - 1];
      Accepted(files[..|files| - 1], compress)
        + (if Attaches(file, compress) then [ImageOf(file, compress(file).value)] else [])
  }

  /** The value `uploadError` ends with: that of the last file rejected, or "" if none was. */
  function LastError(files: seq<File>, compress: File -> Option<string>): string {
    if files == [] then ""
    else
      var file := files[|files| - 1];
      var v := ValidateImageFile(file);
      if !v.valid then ErrorText(v)
      else if compress(file).None? then ProcessingError
      else LastError(files[..|files| - 1], compress)
  }

  /** Every attachment comes from a valid file: allowed type, at most 5 MiB. */
  lemma {:induction false} AcceptedValid(files: seq<File>, compress: File -> Option<string>)
    ensures forall img :: img in Accepted(files, compress) ==> img.mimeType in AllowedImageTypes && img.size <= MaxFileSize
  {
    if files != [] {
      AcceptedValid(files[..|files| - 1], compress);
    }
  }

  /** When every file attaches, the attachments are the files, one for one and in order. */
  lemma {:induction false} AcceptedAll(files: seq<File>, compress: File -> Option<string>)
    requires forall i :: 0 <= i < |files| ==> Attaches(files[i], compress)
    ensures |Accepted(files, compress)| == |files|
    ensures forall i :: 0 <= i < |files| ==>
              compress(files[i]).Some? && Accepted(files, compress)[i] == ImageOf(files[i], compress(files[i]).value)
  {
    if files != [] {
      var n := |files| - 1;
      var init := files[..n];
      AcceptedAll(init, compress);
      var acc := Accepted(files, compress);
      assert acc == Accepted(init, compress) + [ImageOf(files[n], compress(files[n]).value)];
      forall i | 0 <= i < n ensures acc[i] == ImageOf(files[i], compress(files[i]).value) {
        assert files[i] == init[i];
      }
    }
  }

  /** At most one attachment per file. */
  lemma {:induction false} AcceptedAtMost(files: seq<File>, compress: File -> Option<string>)
    ensures |Accepted(files, compress)| <= |files|
  {
    if files != [] {
      AcceptedAtMost(files[..|files| - 1], compress);
    }
  }

  /** No error is left exactly when every file attached. */
  lemma {:induction false} LastErrorEmpty(files: seq<File>, compress: File -> Option<string>)
    ensures LastError(files, compress) == "" <==> forall i :: 0 <= i < |files| ==> Attaches(files[i], compress)
  {
    if files != [] {
      var init := files[..|files| - 1];
      LastErrorEmpty(init, compress);
      if forall i :: 0 <= i < |init| ==> Attaches(init[i], compress) {
        if Attaches(files[|files| - 1], compress) {
          forall i | 0 <= i < |files| ensures Attaches(files[i], compress) {
            if i < |init| {
              assert files[i] == init[i];
            }
          }
        }
      } else {
        var i :| 0 <= i < |init| && !Attaches(init[i], compress);
        assert files[i] == init[i];
      }
    }
  }

  lemma AcceptedSnoc(files: seq<File>, file: File, compress: File -> Option<string>)
    ensures Accepted(files + [file], compress)
         == Accepted(files, compress) + (if Attaches(file, compress) then [ImageOf(file, compress(file).value)] else [])
  {
    assert (files + [file])[..|files|] == files;
  }

  lemma LastErrorSnoc(files: seq<File>, file: File, compress: File -> Option<string>)
    ensures var v := ValidateImageFile(file);
            LastError(files + [file], compress) ==
              if !v.valid then ErrorText(v)
              else if compress(file).None? then ProcessingError
              else LastError(files, compress)
  {
    assert (files + [file])[..|files|] == files;
  }

  /**
   * The state of the `ImageUpload` component: the `images` it was given and
   * its `uploadError`. `onImagesChange` is the returned list, or nothing when
   * it is not called.
   */
  class ImageUpload {
    const images: seq<ImageData>
    var uploadError: string

    constructor (images: seq<ImageData>)
      ensures this.images == images && uploadError == ""
    {
      this.images := images;
      uploadError := "";
    }

    /**
     * `handleFileSelect`: no files changes nothing; otherwise the error is
     * cleared, each valid file that compresses is attached and each other one
     * sets the error, and `onImagesChange` gets the old images followed by the
     * new ones, if there are new ones.
     */
    method HandleFileSelect(files: Option<seq<File>>, compress: File -> Option<string>)
      returns (changed: Option<seq<ImageData>>)
      modifies this`uploadError
      ensures files.None? || files.value == [] ==> changed == None && uploadError == old(uploadError)
      ensures files.Some? && files.value != [] ==>
                && uploadError == LastError(files.value, compress)
                && changed == if Accepted(files.value, compress) == [] then None
                              else Some(images + Accepted(files.value, compress))
    {
      if files.None? || files.value == [] {
        return None;
      }
      var fs := files.value;
      var newImages: seq<ImageData> := [];
      uploadError := "";
      var i := 0;
      while i < |fs|
        invariant 0 <= i <= |fs|
        invariant newImages == Accepted(fs[..i], compress)
        invariant uploadError == LastError(fs[..i], compress)
      {
        var file := fs[i];
        var validation := ValidateImageFile(file);
        AcceptedSnoc(fs[..i], file, compress);
        LastErrorSnoc(fs[..i], file, compress);
        assert fs[..i + 1] == fs[..i] + [file];
        if !validation.valid {
          uploadError := ErrorText(validation);
        } else {
          var compressed := compress(file);
          match compressed
          case Some(data) =>
            newImages := newImages + [ImageOf(file, data)];
          case None =>
            uploadError := ProcessingError;
        }
        i := i + 1;
      }
      assert fs[..i] == fs;
      if |newImages| > 0 {
        changed := Some(images + newImages);
      } else {
        changed := None;
      }
    }
  }

  /** `images.filter((_, i) => i !== index)`. */
  function RemoveImage<T>(images: seq<T>, index: int): (r: seq<T>)
    ensures 0 <= index < |images| ==> r == images[..index] + images[index + 1..]
    ensures !(0 <= index < |images|) ==> r == images
  {
    if images == [] then []
    else
      var n := |images| - 1;
      var init := RemoveImage(images[..n], index);
      assert images == images[..n] + [images[n]];
      assert 0 <= index < n ==>
               && images[..n][..index] == images[..index]
               && images[..n][index + 1..] + [images[n]] == images[index + 1..];
      init + (if n != index then [images[n]] else [])
  }

  datatype Message = Message(id: string, role: string, content: string, images: Option<seq<ImageData>>)

  /** `JSON.stringify` of the placeholder shown while the reply is awaited. */
  const PlaceholderContent :=
    "{\"response\":\"\",\"thinking\":\"AI is processing...\",\"user_mood\":\"neutral\",\"debug\":{\"context_used\":false}}"

  /** The user's message: the event's text when it is a string, the input otherwise; the images only if there are some. */
  function UserMessage(id: string, event: Option<string>, input: string, currentImages: seq<ImageData>): (m: Message)
    ensures m.role == "user"
    ensures m.content == if event.Some? then event.value else input
    ensures m.images.Some? <==> currentImages != []
    ensures m.images.Some? ==> m.images.value == currentImages
  {
    Message(id, "user", if event.Some? then event.value else input, if |currentImages| > 0 then Some(currentImages) else None)
  }

  function Placeholder(id: string): Message {
    Message(id, "assistant", PlaceholderContent, None)
  }

  /** The first `setMessages` of `handleSubmit`: the user message, then the placeholder, at the end. */
  function AppendSubmitted(messages: seq<Message>, user: Message, placeholder: Message): (r: seq<Message>)
    ensures |r| == |messages| + 2
    ensures r[..|messages|] == messages
    ensures r[|messages|] == user && r[|messages| + 1] == placeholder
  {
    messages + [user, placeholder]
  }

  /**
   * The second `setMessages`: the last message is overwritten. On an empty
   * list the index is -1, which is no array index, so the list is unchanged.
   */
  function ReplaceLast(messages: seq<Message>, m: Message): (r: seq<Message>)
    ensures |r| == |messages|
    ensures messages != [] ==> r[..|messages| - 1] == messages[..|messages| - 1] && r[|messages| - 1] == m
    ensures messages == [] ==> r == []
  {
    if messages == [] then [] else messages[..|messages| - 1] + [m]
  }

  /** The conversation state `handleSubmit` changes. */
  datatype ChatState = ChatState(messages: seq<Message>, input: string, currentImages: seq<ImageData>, isLoading: bool)

  /** `handleSubmit` up to the request: loading, the two messages appended, input and images cleared. */
  function BeginSubmit(s: ChatState, event: Option<string>, userId: string, placeholderId: string): (t: ChatState)
    ensures t.isLoading && t.input == "" && t.currentImages == []
    ensures |t.messages| == |s.messages| + 2 && t.messages[..|s.messages|] == s.messages
  {
    ChatState(
      AppendSubmitted(s.messages, UserMessage(userId, event, s.input, s.currentImages), Placeholder(placeholderId)),
      "", [], true)
  }

  /** A successful reply (`JSON.stringify(data)`) replaces the last message. */
  function ReceiveReply(s: ChatState, replyId: string, reply: string): ChatState {
    s.(messages := ReplaceLast(s.messages, Message(replyId, "assistant", reply, None)))
  }

  /** The `finally` block. */
  function FinishSubmit(s: ChatState): ChatState {
    s.(isLoading := false)
  }

  /**
   * A submission answered before anything else changes the transcript adds
   * the user message and the reply: the placeholder is the message the reply
   * replaces. A failed request leaves the placeholder.
   */
  lemma SubmitRoundTrip(s: ChatState, event: Option<string>, userId: string, placeholderId: string, replyId: string, reply: string)
    ensures var user := UserMessage(userId, event, s.input, s.currentImages);
            var answered := FinishSubmit(ReceiveReply(BeginSubmit(s, event, userId, placeholderId), replyId, reply));
            var failed := FinishSubmit(BeginSubmit(s, event, userId, placeholderId));
            && answered.messages == s.messages + [user, Message(replyId, "assistant", reply, None)]
            && failed.messages == s.messages + [user, Placeholder(placeholderId)]
            && !answered.isLoading && answered.input == "" && answered.currentImages == []
  {
    var user := UserMessage(userId, event, s.input, s.currentImages);
    var m := s.messages + [user, Placeholder(placeholderId)];
    assert m[..|m| - 1] == s.messages + [user];
  }

  /** The Send button's `disabled`: while loading, or with a blank input and no images. */
  predicate SendDisabled(isLoading: bool, input: string, currentImages: seq<ImageData>) {
    isLoading || (Trim(input) == "" && currentImages == [])
  }

  /** What `handleKeyDown` does with a key press: whether it prevents the default and whether it submits. */
  datatype KeyOutcome = KeyOutcome(preventDefault: bool, submit: bool)

  /** Enter without Shift never inserts a line break; it submits when the trimmed input is not empty. */
  function HandleKeyDown(key: string, shiftKey: bool, input: string): (o: KeyOutcome)
    ensures o.preventDefault <==> key == "Enter" && !shiftKey
    ensures o.submit ==> o.preventDefault
  {
    if key == "Enter" && !shiftKey then KeyOutcome(true, Trim(input) != "") else KeyOutcome(false, false)
  }

  /**
   * Enter submits exactly when the input holds a non-space character, and a
   * submission by Enter is one the Send button would also allow (the text
   * area is disabled while loading). The button also sends images with a
   * blank input, which Enter does not.
   */
  lemma SubmitConditions(key: string, shiftKey: bool, input: string, currentImages: seq<ImageData>)
    ensures HandleKeyDown(key, shiftKey, input).submit <==> key == "Enter" && !shiftKey && !IsBlank(input)
    ensures HandleKeyDown(key, shiftKey, input).submit ==> !SendDisabled(false, input, currentImages)
    ensures IsBlank(input) ==> (SendDisabled(false, input, currentImages) <==> currentImages == [])
    ensures IsBlank(input) ==> !HandleKeyDown(key, shiftKey, input).submit
  {
    TrimEmptyIffBlank(input);
  }

  /** Submitting disables Send until the request finishes, and clears what it would send. */
  lemma SubmitDisablesSend(s: ChatState, event: Option<string>, userId: string, placeholderId: string)
    ensures var t := BeginSubmit(s, event, userId, placeholderId);
            SendDisabled(t.isLoading, t.input, t.currentImages)
            && SendDisabled(false, FinishSubmit(t).input, FinishSubmit(t).currentImages)
  {
    assert Trim("") == "" by {
      TrimEmptyIffBlank("");
    }
  }
}
