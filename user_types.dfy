/** The sign-in response records (types/user.ts). */
module UserTypes {

  datatype Tokens = Tokens(accessToken: string, idToken: string, refreshToken: string)

  datatype UserAttribute = UserAttribute(name: string, value: string)

  datatype UserInfo = UserInfo(username: string, attributes: seq<UserAttribute>)

  datatype User = User(user: UserInfo, tokens: Tokens)
}
