/**
 * The driver profile screen (app/Profilepage.jsx): the stored driver, an
 * edit buffer (`editData`) edited field by field, an optional picked image,
 * and Save/Cancel. `driver` and `editData` are whatever JSON the storage and
 * the server hand over, so they are JavaScript values here.
 */
module ProfilePage {
  import opened Wrappers
  import Js

  datatype ProfileState = ProfileState(driver: Js.Value, isEditing: bool, editData: Js.Value, imageFile: Js.Value)

  /** `driver` null, not editing, an empty edit buffer, no image. */
  const Initial := ProfileState(Js.Null, false, Js.Obj(map[]), Js.Null)

  datatype View = LoadingView | ProfileView

  /** `if (!driver)`: the loading view until a truthy driver exists. */
  function ViewOf(st: ProfileState): (v: View)
    ensures v == ProfileView <==> Js.Truthy(st.driver)
  {
    if Js.Truthy(st.driver) then ProfileView else LoadingView
  }

  /** The edit buffer is the driver itself or an object built from it by spreading. */
  predicate Coherent(st: ProfileState) {
    st.editData == st.driver || st.editData.Obj?
  }

  /** The storage read on mount: a stored driver, once parsed, becomes both the driver and the buffer. */
  function Load(st: ProfileState, stored: Option<Js.Value>): (r: ProfileState)
    ensures stored.None? ==> r == st
    ensures stored.Some? ==> r.driver == stored.value && r.editData == stored.value
    ensures r.isEditing == st.isEditing && r.imageFile == st.imageFile
    ensures Coherent(st) ==> Coherent(r)
  {
    if stored.Some? then st.(driver := stored.value, editData := stored.value) else st
  }

  /** The four editable inputs. */
  datatype ProfileField = FullName | Email | VehicleType | LicenseNumber

  function Key(f: ProfileField): (k: string)
    ensures k != "profileImageBase64"
  {
    match f
    case FullName => "fullName"
    case Email => "email"
    case VehicleType => "vehicleType"
    case LicenseNumber => "licenseNumber"
  }

  lemma KeysDistinct(f: ProfileField, g: ProfileField)
    ensures Key(f) == Key(g) <==> f == g
  {
  }

  /** The own properties `{...v}` copies from an object; other receivers contribute none. */
  function Spread(v: Js.Value): map<string, Js.Value> {
    if v.Obj? then v.fields else map[]
  }

  /** `{...v, key: x}`. */
  function With(v: Js.Value, key: string, x: Js.Value): (r: Js.Value)
    ensures r.Obj? && Js.Get(r, key) == x
    ensures forall k :: k != key && v.Obj? ==> Js.Get(r, k) == Js.Get(v, k)
  {
    Js.Obj(Spread(v)[key := x])
  }

  predicate Editing(st: ProfileState) {
    ViewOf(st) == ProfileView && st.isEditing
  }

  /** "Edit Profile": shown only on the profile view while not editing. */
  function StartEdit(st: ProfileState): (r: ProfileState)
    ensures ViewOf(st) == ProfileView && !st.isEditing ==> r == st.(isEditing := true)
    ensures !(ViewOf(st) == ProfileView && !st.isEditing) ==> r == st
  {
    if ViewOf(st) == ProfileView && !st.isEditing then st.(isEditing := true) else st
  }

  /** Typing into one of the four inputs while editing: that key of the buffer takes the text, the rest stays. */
  function EditField(st: ProfileState, f: ProfileField, text: string): (r: ProfileState)
    ensures !Editing(st) ==> r == st
    ensures Editing(st) ==>
      && Js.Get(r.editData, Key(f)) == Js.Str(text)
      && (st.editData.Obj? ==> forall k :: k != Key(f) ==> Js.Get(r.editData, k) == Js.Get(st.editData, k))
      && r.driver == st.driver && r.isEditing && r.imageFile == st.imageFile
  {
    if Editing(st) then st.(editData := With(st.editData, Key(f), Js.Str(text))) else st
  }

  /** "Cancel": leave edit mode, restore the buffer from the driver, drop the picked image. */
  function Cancel(st: ProfileState): (r: ProfileState)
    ensures !Editing(st) ==> r == st
    ensures Editing(st) ==> r == ProfileState(st.driver, false, st.driver, Js.Null)
  {
    if Editing(st) then ProfileState(st.driver, false, st.driver, Js.Null) else st
  }

  /** The part of `s` before its first comma (all of `s` when it has none). */
  function BeforeComma(s: string): (r: string)
    ensures |r| <= |s| && r == s[..|r|]
    ensures ',' !in r
  {
    if s == [] || s[0] == ',' then [] else [s[0]] + BeforeComma(s[1..])
  }

  /** The part of `s` after its first comma, if it has one. */
  function AfterComma(s: string): (r: Option<string>)
    ensures r.None? <==> ',' !in s
  {
    if s == [] then None else if s[0] == ',' then Some(s[1..]) else AfterComma(s[1..])
  }

  /** `s.split(",")[1]`: the second comma-separated piece, `undefined` without a comma. */
  function SecondPiece(s: string): (r: Js.Value)
    ensures ',' !in s <==> r.Undefined?
  {
    match AfterComma(s)
    case None => Js.Undefined
    case Some(rest) => Js.Str(BeforeComma(rest))
  }

  lemma {:induction false} AfterCommaOfJoin(header: string, payload: string)
    requires ',' !in header
    ensures AfterComma(header + "," + payload) == Some(payload)
  {
    if header != [] {
      assert (header + "," + payload)[1..] == header[1..] + "," + payload;
      AfterCommaOfJoin(header[1..], payload);
    }
  }

  lemma {:induction false} BeforeCommaOfPlain(s: string)
    requires ',' !in s
    ensures BeforeComma(s) == s
  {
    if s != [] {
      BeforeCommaOfPlain(s[1..]);
    }
  }

  /** A data URL `header,payload` with no other comma yields exactly its payload. */
  lemma DataUrlPayload(header: string, payload: string)
    requires ',' !in header && ',' !in payload
    ensures SecondPiece(header + "," + payload) == Js.Str(payload)
  {
    AfterCommaOfJoin(header, payload);
    BeforeCommaOfPlain(payload);
  }

  /**
   * A web image pick while editing: no file, nothing; otherwise the file is
   * kept and, once read as a data URL, its base64 part goes into the buffer.
   */
  function PickWebImage(st: ProfileState, file: Js.Value, dataUrl: string): (r: ProfileState)
    ensures !Editing(st) || !Js.Truthy(file) ==> r == st
    ensures Editing(st) && Js.Truthy(file) ==>
      && r.imageFile == file
      && Js.Get(r.editData, "profileImageBase64") == SecondPiece(dataUrl)
      && r.driver == st.driver && r.isEditing
  {
    if Editing(st) && Js.Truthy(file) then
      st.(imageFile := file, editData := With(st.editData, "profileImageBase64", SecondPiece(dataUrl)))
    else st
  }

  /** A native image pick: the picker's file object is kept as is. */
  function PickNativeImage(st: ProfileState, file: Js.Value): (r: ProfileState)
    ensures r == st.(imageFile := file)
  {
    st.(imageFile := file)
  }

  const PlaceholderImage := "https://via.placeholder.com/150"
  const DataUrlPrefix := "data:image/jpeg;base64,"

  /** The image shown: the buffer's base64 payload as a JPEG data URL, or the placeholder. */
  function DisplayedImage(editData: Js.Value): (url: string)
    ensures Js.Truthy(Js.Get(editData, "profileImageBase64")) ==>
      url == DataUrlPrefix + Js.Show(Js.Get(editData, "profileImageBase64"))
    ensures !Js.Truthy(Js.Get(editData, "profileImageBase64")) ==> url == PlaceholderImage
  {
    var payload := Js.Get(editData, "profileImageBase64");
    if Js.Truthy(payload) then DataUrlPrefix + Js.Show(payload) else PlaceholderImage
  }

  /** Picking a web image whose data URL carries a payload shows that payload as a JPEG data URL. */
  lemma PickedImageDisplayed(st: ProfileState, file: Js.Value, header: string, payload: string)
    requires Editing(st) && Js.Truthy(file)
    requires ',' !in header && ',' !in payload && payload != ""
    ensures DisplayedImage(PickWebImage(st, file, header + "," + payload).editData) == DataUrlPrefix + payload
  {
    DataUrlPayload(header, payload);
  }

  /** The multipart form sent on save: the driver's id in the path, four text parts, an optional image part. */
  datatype UpdateRequest = UpdateRequest(
    driverId: string,
    fullName: string,
    email: string,
    vehicleType: string,
    licenseNumber: string,
    image: Option<Js.Value>)

  /** `editData.key || ""`, as `FormData` turns it into text. */
  function FieldText(editData: Js.Value, f: ProfileField): string {
    Js.Show(Js.Or(Js.Get(editData, Key(f)), Js.Str("")))
  }

  /** The image part on a native platform: its uri, and a name and type with defaults. */
  function NativeDescriptor(file: Js.Value): (d: Js.Value)
    ensures d.Obj? && Js.Truthy(Js.Get(d, "name")) && Js.Truthy(Js.Get(d, "type"))
    ensures !Js.Truthy(Js.Get(file, "name")) ==> Js.Get(d, "name") == Js.Str("profile.jpg")
    ensures !Js.Truthy(Js.Get(file, "type")) ==> Js.Get(d, "type") == Js.Str("image/jpeg")
    ensures Js.Truthy(Js.Get(file, "name")) ==> Js.Get(d, "name") == Js.Get(file, "name")
  {
    Js.Obj(map[
      "uri" := Js.Get(file, "uri"),
      "name" := Js.Or(Js.Get(file, "name"), Js.Str("profile.jpg")),
      "type" := Js.Or(Js.Get(file, "type"), Js.Str("image/jpeg"))])
  }

  function BuildRequest(st: ProfileState, web: bool): (req: UpdateRequest)
    ensures req.image.Some? <==> Js.Truthy(st.imageFile)
    ensures req.image.Some? && web ==> req.image.value == st.imageFile
    ensures req.image.Some? && !web ==> req.image.value == NativeDescriptor(st.imageFile)
  {
    UpdateRequest(
      Js.Show(Js.Get(st.driver, "id")),
      FieldText(st.editData, FullName),
      FieldText(st.editData, Email),
      FieldText(st.editData, VehicleType),
      FieldText(st.editData, LicenseNumber),
      if !Js.Truthy(st.imageFile) then None
      else if web then Some(st.imageFile)
      else Some(NativeDescriptor(st.imageFile)))
  }

  /** How the update request ended: it threw (or its body did not parse), or an ok flag and the parsed body. */
  datatype Reply = Threw | Answered(ok: bool, result: Js.Value)

  datatype SaveStep = SaveStep(state: ProfileState, request: Option<UpdateRequest>, alert: Option<string>)

  const ServerErrorMessage := "Server error"
  const UpdatedMessage := "Profile updated successfully!"

  /**
   * "Save" while editing. A nullish buffer throws before the request; a
   * failed request, or a property read on a nullish body, alerts "Server
   * error"; a non-ok answer alerts the body's `error` (or "Update failed");
   * an ok answer replaces both the driver and the buffer with the body's
   * `driver`, leaves edit mode and drops the image. Only success changes state.
   */
  function Save(st: ProfileState, web: bool, reply: Reply): (r: SaveStep)
    ensures !Editing(st) ==> r == SaveStep(st, None, None)
    ensures Editing(st) && !Js.Nullish(st.editData) ==> r.request == Some(BuildRequest(st, web))
    ensures Editing(st) ==> r.alert.Some?
    ensures r.state != st ==> reply.Answered? && reply.ok
    ensures Editing(st) && r.request.Some? && reply.Answered? && !Js.Nullish(reply.result) && !reply.ok ==>
      r.alert == Some(Js.Show(Js.Or(Js.Get(reply.result, "error"), Js.Str("Update failed"))))
    ensures Editing(st) && r.request.Some? && reply.Answered? && !Js.Nullish(reply.result) && reply.ok ==>
      && r.state == ProfileState(Js.Get(reply.result, "driver"), false, Js.Get(reply.result, "driver"), Js.Null)
      && r.alert == Some(UpdatedMessage)
    ensures Editing(st) && (reply.Threw? || Js.Nullish(reply.result)) ==>
      r.state == st && r.alert == Some(ServerErrorMessage)
  {
    if !Editing(st) then SaveStep(st, None, None)
    else if Js.Nullish(st.editData) then SaveStep(st, None, Some(ServerErrorMessage))
    else
      var req := Some(BuildRequest(st, web));
      match reply
      case Threw => SaveStep(st, req, Some(ServerErrorMessage))
      case Answered(ok, result) =>
        if Js.Nullish(result) then SaveStep(st, req, Some(ServerErrorMessage))
        else if !ok then
          SaveStep(st, req, Some(Js.Show(Js.Or(Js.Get(result, "error"), Js.Str("Update failed")))))
        else
          var updated := Js.Get(result, "driver");
          SaveStep(ProfileState(updated, false, updated, Js.Null), req, Some(UpdatedMessage))
  }

  /** While the driver is being loaded nothing on the page reacts. */
  lemma LoadingViewInert(st: ProfileState, f: ProfileField, text: string, file: Js.Value, dataUrl: string, web: bool, reply: Reply)
    requires ViewOf(st) == LoadingView
    ensures StartEdit(st) == st && EditField(st, f, text) == st && Cancel(st) == st
    ensures PickWebImage(st, file, dataUrl) == st
    ensures Save(st, web, reply) == SaveStep(st, None, None)
  {
  }

  /** Every handler keeps the buffer either the driver itself or an object. */
  lemma HandlersKeepCoherent(st: ProfileState, f: ProfileField, text: string, file: Js.Value, dataUrl: string, web: bool, reply: Reply)
    requires Coherent(st)
    ensures Coherent(StartEdit(st)) && Coherent(EditField(st, f, text)) && Coherent(Cancel(st))
    ensures Coherent(PickWebImage(st, file, dataUrl)) && Coherent(PickNativeImage(st, file))
    ensures Coherent(Save(st, web, reply).state)
  {
  }

  /** While the profile is shown the buffer is never nullish, so Save always sends its request. */
  lemma CoherentSaveSends(st: ProfileState, web: bool, reply: Reply)
    requires Coherent(st) && Editing(st)
    ensures Save(st, web, reply).request == Some(BuildRequest(st, web))
  {
  }

  /** Field edits made while editing, in order. */
  function EditAll(st: ProfileState, edits: seq<(ProfileField, string)>): ProfileState
    decreases |edits|
  {
    if edits == [] then st else EditAll(EditField(st, edits[0].0, edits[0].1), edits[1..])
  }

  /** Edits touch only the buffer. */
  lemma {:induction false} EditAllKeepsDriver(st: ProfileState, edits: seq<(ProfileField, string)>)
    ensures EditAll(st, edits).driver == st.driver
    ensures EditAll(st, edits).isEditing == st.isEditing
    ensures EditAll(st, edits).imageFile == st.imageFile
    decreases |edits|
  {
    if edits != [] {
      EditAllKeepsDriver(EditField(st, edits[0].0, edits[0].1), edits[1..]);
    }
  }

  /** Cancel after any edits gives the same page as cancelling straight away: the edits are gone. */
  lemma CancelUndoesEdits(st: ProfileState, edits: seq<(ProfileField, string)>)
    ensures Cancel(EditAll(st, edits)) == Cancel(st)
  {
    EditAllKeepsDriver(st, edits);
  }

  /** A value typed into a field, even an empty one, is what Save sends for it. */
  lemma EditedValueIsSent(st: ProfileState, f: ProfileField, text: string, web: bool, reply: Reply)
    requires Editing(st)
    ensures var edited := EditField(st, f, text);
      var req := Save(edited, web, reply).request;
      req.Some? && FieldText(edited.editData, f) == text
  {
  }

  /** After a successful save the buffer equals the new driver, so cancelling then changes nothing but the mode. */
  lemma SavedThenCancelKeepsUpdate(st: ProfileState, web: bool, result: Js.Value)
    requires Editing(st) && !Js.Nullish(st.editData) && !Js.Nullish(result)
    ensures var after := Save(st, web, Answered(true, result)).state;
      after.editData == after.driver && !after.isEditing && Cancel(after) == after
  {
  }
}
