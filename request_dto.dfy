/**
 * The class-validator constraints of the user controller's request DTOs.
 * A request body is a JSON object. A DTO's check yields the set of its
 * declared properties that break a constraint; the global validation pipe
 * also refuses every property the DTO does not declare (`Undeclared`). The
 * pipe's implicit type conversion, which runs before these checks, is not
 * part of this model (see README, "Left out").
 */
module RequestDto {
  import opened JsValues
  import opened Text

  // The individual decorators.

  predicate IsStringValue(v: JsValue)
  {
    v.Str?
  }

  /** `@IsNotEmpty()`: not `''`, `null` or `undefined`. */
  predicate IsNotEmpty(v: JsValue)
  {
    v != Str("") && !IsNullish(v)
  }

  /** U+FE0E and U+FE0F, the text and emoji presentation selectors. */
  predicate IsVariationSelector(c: char)
  {
    c as int == 0xFE0E || c as int == 0xFE0F
  }

  /** The length validator.js `isLength` measures, which `@MinLength` and
      `@MaxLength` use: the UTF-16 length less one per surrogate pair and less
      the presentation selectors. A Dafny character is a whole code point, so
      a surrogate pair is already one character and only the selectors are
      taken off. */
  function ValidatorLength(s: string): (n: nat)
    ensures n <= |s|
    ensures (forall i :: 0 <= i < |s| ==> !IsVariationSelector(s[i])) ==> n == |s|
  {
    if |s| == 0 then 0
    else (if IsVariationSelector(s[0]) then 0 else 1) + ValidatorLength(s[1..])
  }

  predicate MinLength(v: JsValue, n: nat)
  {
    v.Str? && ValidatorLength(v.s) >= n
  }

  predicate MaxLength(v: JsValue, n: nat)
  {
    v.Str? && ValidatorLength(v.s) <= n
  }

  /** `/^1[3-9]\d{9}$/`: eleven ASCII digits, the first `1`, the second 3 to 9. */
  predicate IsMobileNumber(s: string)
  {
    |s| == 11 && s[0] == '1' && '3' <= s[1] <= '9' && forall i :: 2 <= i < 11 ==> IsDigit(s[i])
  }

  /** `@IsOptional()`: a `null` or `undefined` property skips its other checks. */
  predicate Optional(v: JsValue, check: JsValue -> bool)
  {
    IsNullish(v) || check(v)
  }

  // The properties.

  predicate RequiredString(v: JsValue)
  {
    IsStringValue(v) && IsNotEmpty(v)
  }

  /** The account name of the PC DTOs: 3 to 20 characters. */
  predicate Account(v: JsValue)
  {
    RequiredString(v) && MinLength(v, 3) && MaxLength(v, 20)
  }

  /** The password of the PC DTOs: at least 6 characters. */
  predicate Password(v: JsValue)
  {
    RequiredString(v) && MinLength(v, 6)
  }

  function Check(name: string, ok: bool): set<string>
  {
    if ok then {} else {name}
  }

  // The DTO classes.

  function WechatLoginDtoViolations(body: map<string, JsValue>): (bad: set<string>)
    ensures bad <= {"code"}
    ensures bad == {} <==> Field(body, "code").Str? && Field(body, "code").s != ""
  {
    Check("code", RequiredString(Field(body, "code")))
  }

  function WechatRegisterDtoViolations(body: map<string, JsValue>): (bad: set<string>)
    ensures bad <= {"code", "nickName", "avatarUrl", "autoLogin"}
    ensures "code" in bad <==> !(Field(body, "code").Str? && Field(body, "code").s != "")
    ensures "nickName" in bad <==> !(IsNullish(Field(body, "nickName")) || Field(body, "nickName").Str?)
    ensures "avatarUrl" in bad <==> !(IsNullish(Field(body, "avatarUrl")) || Field(body, "avatarUrl").Str?)
    ensures "autoLogin" in bad <==> !(IsNullish(Field(body, "autoLogin")) || Field(body, "autoLogin").Bool?)
    ensures IsNullish(Field(body, "nickName")) && IsNullish(Field(body, "avatarUrl")) &&
            IsNullish(Field(body, "autoLogin")) ==>
      (bad == {} <==> Field(body, "code").Str? && Field(body, "code").s != "")
  {
    Check("code", RequiredString(Field(body, "code"))) +
    Check("nickName", Optional(Field(body, "nickName"), IsStringValue)) +
    Check("avatarUrl", Optional(Field(body, "avatarUrl"), IsStringValue)) +
    Check("autoLogin", Optional(Field(body, "autoLogin"), (v: JsValue) => v.Bool?))
  }

  function PcLoginDtoViolations(body: map<string, JsValue>): (bad: set<string>)
    ensures bad <= {"username", "password"}
    ensures var u := Field(body, "username");
      "username" in bad <==> !(u.Str? && u.s != "" && 3 <= ValidatorLength(u.s) <= 20)
    ensures var p := Field(body, "password");
      "password" in bad <==> !(p.Str? && p.s != "" && ValidatorLength(p.s) >= 6)
    ensures var u, p := Field(body, "username"), Field(body, "password");
      bad == {} <==>
        u.Str? && u.s != "" && 3 <= ValidatorLength(u.s) <= 20 &&
        p.Str? && p.s != "" && ValidatorLength(p.s) >= 6
  {
    Check("username", Account(Field(body, "username"))) +
    Check("password", Password(Field(body, "password")))
  }

  /** `isEmail` stands for class-validator's e-mail check, which is not modelled. */
  function PcRegisterDtoViolations(body: map<string, JsValue>, isEmail: string -> bool): (bad: set<string>)
    ensures bad <= {"username", "realName", "password", "confirmPassword", "email", "phone"}
    ensures var u := Field(body, "username");
      "username" in bad <==> !(u.Str? && u.s != "" && 3 <= ValidatorLength(u.s) <= 20)
    ensures var n := Field(body, "realName");
      "realName" in bad <==> !(n.Str? && n.s != "")
    ensures var p := Field(body, "password");
      "password" in bad <==> !(p.Str? && p.s != "" && ValidatorLength(p.s) >= 6)
    ensures var c := Field(body, "confirmPassword");
      "confirmPassword" in bad <==> !(c.Str? && c.s != "")
    ensures var e := Field(body, "email");
      "email" in bad <==> !(IsNullish(e) || (e.Str? && isEmail(e.s)))
    ensures var m := Field(body, "phone");
      "phone" in bad <==> !(IsNullish(m) || (m.Str? && IsMobileNumber(m.s)))
    ensures var u, n, p := Field(body, "username"), Field(body, "realName"), Field(body, "password");
      var c, e, m := Field(body, "confirmPassword"), Field(body, "email"), Field(body, "phone");
      bad == {} <==>
        u.Str? && u.s != "" && 3 <= ValidatorLength(u.s) <= 20 && n.Str? && n.s != "" &&
        p.Str? && p.s != "" && ValidatorLength(p.s) >= 6 && c.Str? && c.s != "" &&
        (IsNullish(e) || (e.Str? && isEmail(e.s))) && (IsNullish(m) || (m.Str? && IsMobileNumber(m.s)))
  {
    var required := PcLoginDtoViolations(body) +
      Check("realName", RequiredString(Field(body, "realName"))) +
      Check("confirmPassword", RequiredString(Field(body, "confirmPassword")));
    required + ContactViolations(body, isEmail)
  }

  /** The two optional contact properties of the registration DTO. */
  function ContactViolations(body: map<string, JsValue>, isEmail: string -> bool): (bad: set<string>)
    ensures bad <= {"email", "phone"}
    ensures var e := Field(body, "email");
      "email" in bad <==> !(IsNullish(e) || (e.Str? && isEmail(e.s)))
    ensures var m := Field(body, "phone");
      "phone" in bad <==> !(IsNullish(m) || (m.Str? && IsMobileNumber(m.s)))
  {
    Check("email", Optional(Field(body, "email"), (v: JsValue) => v.Str? && isEmail(v.s))) +
    Check("phone", Optional(Field(body, "phone"), (v: JsValue) => v.Str? && IsMobileNumber(v.s)))
  }

  /** Every property of the user-info query is optional. */
  function GetUserInfoDtoViolations(query: map<string, JsValue>): (bad: set<string>)
    ensures bad <= {"id", "username", "wechatOpenId"}
    ensures "id" in bad <==> !(IsNullish(Field(query, "id")) || Field(query, "id").Str?)
    ensures "username" in bad <==> !(IsNullish(Field(query, "username")) || Field(query, "username").Str?)
    ensures "wechatOpenId" in bad <==> !(IsNullish(Field(query, "wechatOpenId")) || Field(query, "wechatOpenId").Str?)
    ensures (forall k :: k in query ==> query[k].Str?) ==> bad == {}
  {
    Check("id", Optional(Field(query, "id"), IsStringValue)) +
    Check("username", Optional(Field(query, "username"), IsStringValue)) +
    Check("wechatOpenId", Optional(Field(query, "wechatOpenId"), IsStringValue))
  }

  /** A query key given twice (`?id=1&id=2`) arrives as an array and is refused. */
  lemma RepeatedQueryKeyRefused()
    ensures GetUserInfoDtoViolations(map["id" := Arr([Str("1"), Str("2")])]) == {"id"}
  {
  }

  /** An empty query passes validation. */
  lemma EmptyQueryIsValid()
    ensures GetUserInfoDtoViolations(map[]) == {}
  {
  }

  /** Examples of the mobile-number pattern. */
  lemma MobileNumberExamples()
    ensures IsMobileNumber("13812345678")
    ensures !IsMobileNumber("12812345678")
    ensures !IsMobileNumber("1381234567")
  {
  }

  /** The properties each DTO declares. */
  const WechatLoginDtoProperties: set<string> := {"code"}
  const WechatRegisterDtoProperties: set<string> := {"code", "nickName", "avatarUrl", "autoLogin"}
  const PcLoginDtoProperties: set<string> := {"username", "password"}
  const PcRegisterDtoProperties: set<string> :=
    {"username", "realName", "password", "confirmPassword", "email", "phone"}
  const GetUserInfoDtoProperties: set<string> := {"id", "username", "wechatOpenId"}

  /** `forbidNonWhitelisted`: every property of the body that the DTO does
      not declare is refused. */
  function Undeclared(body: map<string, JsValue>, declared: set<string>): (extra: set<string>)
    ensures forall k :: k in extra <==> k in body && k !in declared
  {
    set k | k in body && k !in declared
  }

  /** A WeChat login body with a non-empty code and nothing else passes the
      pipe; one more property is refused whatever the code. */
  lemma ExtraPropertyRefused(code: string, extra: string, v: JsValue)
    requires code != "" && extra != "code"
    ensures var body := map["code" := Str(code)];
      WechatLoginDtoViolations(body) + Undeclared(body, WechatLoginDtoProperties) == {}
    ensures var body := map["code" := Str(code), extra := v];
      extra in Undeclared(body, WechatLoginDtoProperties)
  {
    var body := map["code" := Str(code)];
    assert Field(body, "code") == Str(code);
    assert Undeclared(body, WechatLoginDtoProperties) == {};
  }

  /** A character outside the Basic Multilingual Plane counts once: `a😀` is
      too short for an account name, `ab😀` is not, and twenty emoji fit. */
  lemma {:induction false} AccountLengthCountsCodePoints()
    ensures !Account(Str("a\U{1F600}"))
    ensures Account(Str("ab\U{1F600}"))
    ensures Account(Str(seq(20, _ => '\U{1F600}')))
    ensures !Account(Str("ab\U{FE0F}"))
  {
    var twenty := seq(20, _ => '\U{1F600}');
    assert !IsVariationSelector('\U{1F600}');
    assert ValidatorLength(twenty) == 20;
    assert ValidatorLength("ab\U{FE0F}") == 2 by {
      assert "ab\U{FE0F}"[1..] == "b\U{FE0F}";
      assert "b\U{FE0F}"[1..] == "\U{FE0F}";
      assert "\U{FE0F}"[1..] == "";
    }
  }
}
