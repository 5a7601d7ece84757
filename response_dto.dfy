/**
 * The user controller's response DTO classes. Each class is `@Exclude()`d as
 * a whole, so only its `@Expose()`d properties survive projection.
 */
module ResponseDto {

  datatype Dto = Dto(name: string, exposed: set<string>)

  const LoginResponseDto := Dto("LoginResponseDto", {"token", "expiresIn"})

  const RegisterResponseDto := Dto("RegisterResponseDto", {"message"})

  const UserInfoResponseDto := Dto("UserInfoResponseDto", {
    "id", "username", "realName", "email", "phone", "wechatOpenId",
    "wechatNickName", "wechatAvatarUrl", "status", "createdAt", "updatedAt"
  })

  /** The user-info class exposes eleven properties, and the password is not one of them. */
  lemma UserInfoDtoHidesPassword()
    ensures "password" !in UserInfoResponseDto.exposed
    ensures |UserInfoResponseDto.exposed| == 11
  {
  }
}
