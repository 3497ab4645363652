/**
 * The rider sign-in screen (app/login.jsx): identifier and password boxes,
 * a show-password eye, and `handleLogin`, which posts to the login endpoint
 * and shows a success or error popup.
 *
 * The HTTP client resolves on a 2xx status and rejects otherwise, carrying
 * the response; a request with no response rejects without one. The popup
 * timers are collapsed: a success popup is followed by the move to /home.
 */
module LoginScreen {
  import opened Wrappers
  import Text
  import Js
  import UserStore
  import LoginRequestDto
  import AuthControllers

  datatype Form = Form(identifier: string, password: string, showPassword: bool)

  const InitialForm := Form("", "", false)

  datatype PopupKind = SuccessPopup | ErrorPopup

  datatype Popup = Popup(kind: PopupKind, message: string)

  /** The JSON body sent to the login endpoint. */
  datatype Payload = Payload(identifier: string, password: string)

  /** What the request came back with: nothing, or a status and the parsed body. */
  datatype Reply = NoResponse | Answered(status: int, data: Js.Value)

  /** One press of the sign-in button: the popup shown, the request sent, whether /home follows. */
  datatype LoginStep = LoginStep(popup: Popup, request: Option<Payload>, goHome: bool)

  const MissingFieldsMessage := "Please enter email/phone and password"
  const DefaultFailureMessage := "Invalid login credentials!"
  const WelcomePrefix := "Welcome back! ID: "

  /** `!s.trim()`: nothing left after JavaScript's trim. */
  predicate Blank(s: string) {
    Text.Trim(Text.JsWhitespace, s) == []
  }

  predicate Succeeded(reply: Reply) {
    reply.Answered? && 200 <= reply.status < 300
  }

  /** The error popup text: the body's `error` field when truthy, the default otherwise. */
  function FailureMessage(reply: Reply): (m: string)
    ensures m != "" || (reply.Answered? && Js.Truthy(Js.OptGet(reply.data, "error")))
  {
    var data := if reply.Answered? then reply.data else Js.Undefined;
    Js.Show(Js.Or(Js.OptGet(data, "error"), Js.Str(DefaultFailureMessage)))
  }

  /**
   * `handleLogin`. A blank identifier or password stops with an error popup
   * and no request; otherwise both trimmed values are sent. A 2xx answer
   * shows the welcome popup with the body's `rideId` and moves to /home;
   * anything else shows the error popup. A 2xx answer with a `null` body
   * makes the `rideId` read throw, which lands in the error branch with no
   * server response to read.
   */
  function Submit(f: Form, reply: Reply): (r: LoginStep)
    ensures Blank(f.identifier) || Blank(f.password) ==>
      r == LoginStep(Popup(ErrorPopup, MissingFieldsMessage), None, false)
    ensures !Blank(f.identifier) && !Blank(f.password) ==>
      r.request == Some(Payload(Text.Trim(Text.JsWhitespace, f.identifier), Text.Trim(Text.JsWhitespace, f.password)))
    ensures r.goHome <==> r.popup.kind == SuccessPopup
    ensures r.goHome <==> !Blank(f.identifier) && !Blank(f.password) && Succeeded(reply) && !Js.Nullish(reply.data)
    ensures r.goHome ==> r.popup.message == WelcomePrefix + Js.Show(Js.Get(reply.data, "rideId"))
    ensures r.request.Some? && !Succeeded(reply) ==> r.popup.message == FailureMessage(reply)
    ensures r.request.Some? && Succeeded(reply) && Js.Nullish(reply.data) ==>
      r.popup == Popup(ErrorPopup, DefaultFailureMessage)
  {
    if Blank(f.identifier) || Blank(f.password) then
      LoginStep(Popup(ErrorPopup, MissingFieldsMessage), None, false)
    else
      var req := Some(Payload(Text.Trim(Text.JsWhitespace, f.identifier), Text.Trim(Text.JsWhitespace, f.password)));
      if Succeeded(reply) && !Js.Nullish(reply.data) then
        LoginStep(Popup(SuccessPopup, WelcomePrefix + Js.Show(Js.Get(reply.data, "rideId"))), req, true)
      else if Succeeded(reply) then
        assert FailureMessage(NoResponse) == DefaultFailureMessage;
        LoginStep(Popup(ErrorPopup, FailureMessage(NoResponse)), req, false)
      else
        LoginStep(Popup(ErrorPopup, FailureMessage(reply)), req, false)
  }

  /** The eye icon flips password visibility and nothing else. */
  function TogglePassword(f: Form): (r: Form)
    ensures r.showPassword == !f.showPassword
    ensures r.identifier == f.identifier && r.password == f.password
  {
    f.(showPassword := !f.showPassword)
  }

  lemma ToggleTwice(f: Form)
    ensures TogglePassword(TogglePassword(f)) == f
  {
  }

  /** The values sent are already trimmed: trimming them again changes nothing. */
  lemma PayloadIsTrimmed(f: Form, reply: Reply)
    requires !Blank(f.identifier) && !Blank(f.password)
    ensures var p := Submit(f, reply).request.value;
      && Text.Trim(Text.JsWhitespace, p.identifier) == p.identifier
      && Text.Trim(Text.JsWhitespace, p.password) == p.password
      && p.identifier != [] && p.password != []
  {
    Text.TrimIdempotent(Text.JsWhitespace, f.identifier);
    Text.TrimIdempotent(Text.JsWhitespace, f.password);
  }

  /** An untouched form cannot be submitted. */
  lemma InitialFormRejected(reply: Reply)
    ensures Submit(InitialForm, reply).request.None?
  {
  }

  /**
   * The JSON the screen receives for a login-endpoint response: the string
   * list for 200 and 400; for the too-many-rows failure, the framework's
   * default error object, whose `error` field is the reason phrase.
   */
  function Wire(resp: AuthControllers.Response): (r: Js.Value)
    ensures resp.status != 500 ==> r.Arr? && |r.items| == |resp.body|
  {
    if resp.status == 500 then
      Js.Obj(map["status" := Js.Num(500), "error" := Js.Str("Internal Server Error")])
    else Js.StrList(resp.body)
  }

  /** The controller's view of a payload: both fields present. */
  function AsLoginRequest(p: Payload): LoginRequestDto.LoginRequest {
    LoginRequestDto.LoginRequest(Some(p.identifier), Some(p.password))
  }

  /**
   * Against the login controller the popup never shows an account id: the
   * success body is a list, so `rideId` reads as undefined; a 400 list has
   * no `error` field, so the default text appears; a 500 shows the reason phrase.
   */
  lemma AgainstControllerNoIdShown(st: UserStore.Store, f: Form)
    requires !Blank(f.identifier) && !Blank(f.password)
    ensures var p := Payload(Text.Trim(Text.JsWhitespace, f.identifier), Text.Trim(Text.JsWhitespace, f.password));
      var resp := AuthControllers.Login(st, AsLoginRequest(p));
      var shown := Submit(f, Answered(resp.status, Wire(resp))).popup;
      && (resp.status == 200 ==> shown == Popup(SuccessPopup, WelcomePrefix + "undefined"))
      && (resp.status == 400 ==> shown == Popup(ErrorPopup, DefaultFailureMessage))
      && (resp.status == 500 ==> shown == Popup(ErrorPopup, "Internal Server Error"))
  {
    var p := Payload(Text.Trim(Text.JsWhitespace, f.identifier), Text.Trim(Text.JsWhitespace, f.password));
    var resp := AuthControllers.Login(st, AsLoginRequest(p));
    WirePopup(f, resp);
  }

  /** The popup for each kind of controller response, whatever the response's contents. */
  lemma WirePopup(f: Form, resp: AuthControllers.Response)
    requires !Blank(f.identifier) && !Blank(f.password)
    ensures var shown := Submit(f, Answered(resp.status, Wire(resp))).popup;
      && (resp.status == 200 ==> shown == Popup(SuccessPopup, WelcomePrefix + "undefined"))
      && (resp.status == 400 ==> shown == Popup(ErrorPopup, DefaultFailureMessage))
      && (resp.status == 500 ==> shown == Popup(ErrorPopup, "Internal Server Error"))
  {
    if resp.status == 500 {
      ErrorObjectPopup(f, resp);
    } else if resp.status == 200 {
      ListSuccessPopup(f, resp);
    } else if resp.status == 400 {
      ListRefusalPopup(f, resp);
    }
  }

  lemma ListSuccessPopup(f: Form, resp: AuthControllers.Response)
    requires !Blank(f.identifier) && !Blank(f.password) && resp.status == 200
    ensures Submit(f, Answered(resp.status, Wire(resp))).popup == Popup(SuccessPopup, WelcomePrefix + "undefined")
  {
    ListBodyPopup(f, resp.status, Wire(resp));
  }

  lemma ListRefusalPopup(f: Form, resp: AuthControllers.Response)
    requires !Blank(f.identifier) && !Blank(f.password) && resp.status == 400
    ensures Submit(f, Answered(resp.status, Wire(resp))).popup == Popup(ErrorPopup, DefaultFailureMessage)
  {
    ListBodyPopup(f, resp.status, Wire(resp));
  }

  /** Any list body: no `rideId` to show on success, no `error` to show on failure. */
  lemma ListBodyPopup(f: Form, status: int, data: Js.Value)
    requires !Blank(f.identifier) && !Blank(f.password) && data.Arr?
    ensures 200 <= status < 300 ==> Submit(f, Answered(status, data)).popup == Popup(SuccessPopup, WelcomePrefix + "undefined")
    ensures !(200 <= status < 300) ==> Submit(f, Answered(status, data)).popup == Popup(ErrorPopup, DefaultFailureMessage)
  {
    var step := Submit(f, Answered(status, data));
    if 200 <= status < 300 {
      assert step.goHome;
      assert Js.Get(data, "rideId") == Js.Undefined;
    } else {
      RefusalPopup(f, status, data);
      DefaultWithoutErrorField(Answered(status, data));
    }
  }

  /** A body without a truthy `error` field gets the default text. */
  lemma DefaultWithoutErrorField(reply: Reply)
    requires reply.Answered? && reply.data.Arr?
    ensures FailureMessage(reply) == DefaultFailureMessage
  {
    assert Js.OptGet(reply.data, "error") == Js.Undefined;
    assert Js.Or(Js.Undefined, Js.Str(DefaultFailureMessage)) == Js.Str(DefaultFailureMessage);
  }

  lemma ErrorObjectPopup(f: Form, resp: AuthControllers.Response)
    requires !Blank(f.identifier) && !Blank(f.password) && resp.status == 500
    ensures Submit(f, Answered(resp.status, Wire(resp))).popup == Popup(ErrorPopup, "Internal Server Error")
  {
    RefusalPopup(f, 500, Wire(resp));
    ErrorObjectMessage(resp);
  }

  /** The default error object's `error` field is the text shown. */
  lemma ErrorObjectMessage(resp: AuthControllers.Response)
    requires resp.status == 500
    ensures FailureMessage(Answered(500, Wire(resp))) == "Internal Server Error"
  {
    var data := Js.Obj(map["status" := Js.Num(500), "error" := Js.Str("Internal Server Error")]);
    assert Wire(resp) == data;
    assert Js.OptGet(data, "error") == Js.Str("Internal Server Error");
  }

  /** Any non-2xx answer shows the error popup with the failure text. */
  lemma RefusalPopup(f: Form, status: int, data: Js.Value)
    requires !Blank(f.identifier) && !Blank(f.password) && !(200 <= status < 300)
    ensures Submit(f, Answered(status, data)).popup == Popup(ErrorPopup, FailureMessage(Answered(status, data)))
  {
  }
}
