/** The account records exchanged with the authentication endpoints (Models/User.swift). */
module Users {

  datatype User = User(id: int, username: string, createdAt: string, updatedAt: string)

  /** Body of a successful `POST /auth/login`. */
  datatype LoginResponse = LoginResponse(token: string, user: User)

  /** Body of a successful `POST /auth/signup`; the user arrives under the key `trimmedUser`. */
  datatype RegisterResponse = RegisterResponse(token: string, trimmedUser: User)
}
