/** The dummy login of api/app.py and app.py: a fixed table of users and a session holding
    at most one logged-in user. */
module Auth {
  import opened Wrappers

  /** The hard-coded USERS table: e-mail to password. */
  const Users: map<string, string> := map["test@example.com" := "1234", "yash@example.com" := "password"]

  /** email in USERS and USERS[email] == password; a missing field (None) never matches. */
  predicate Accepts(users: map<string, string>, email: Option<string>, password: Option<string>)
  {
    email.Some? && email.value in users && password == Some(users[email.value])
  }

  /** Exactly the two hard-coded pairs log in. */
  lemma AcceptsExactly(email: Option<string>, password: Option<string>)
    ensures Accepts(Users, email, password) <==>
      (email == Some("test@example.com") && password == Some("1234")) ||
      (email == Some("yash@example.com") && password == Some("password"))
  {
  }

  /** A login without an e-mail or without a password is refused whatever the other field holds;
      so is a wrong password for a known user and a known password for an unknown user. */
  lemma AcceptsNeedsBoth(email: Option<string>, password: Option<string>)
    ensures !Accepts(Users, None, password)
    ensures !Accepts(Users, email, None)
    ensures !Accepts(Users, Some("test@example.com"), None)
    ensures !Accepts(Users, Some("test@example.com"), Some("password"))
    ensures !Accepts(Users, Some("nobody@example.com"), Some("1234"))
  {
  }

  /** The server-side session; user is session["user"], absent as None. */
  class Session {
    var user: Option<string>

    constructor ()
      ensures user == None
    {
      user := None;
    }

    /** POST /login: on a match the session user becomes the e-mail and the reply is 200;
        otherwise 401 and the session is untouched. */
    method Login(email: Option<string>, password: Option<string>) returns (status: int, success: bool, message: string)
      modifies this
      ensures success <==> Accepts(Users, email, password)
      ensures success ==> user == email && status == 200 && message == "Logged in!"
      ensures !success ==> user == old(user) && status == 401 && message == "Invalid credentials"
    {
      if email.Some? && email.value in Users && Some(Users[email.value]) == password {
        user := email;
        return 200, true, "Logged in!";
      }
      return 401, false, "Invalid credentials";
    }

    /** POST /logout: session.pop("user", None) always succeeds, whether or not anyone was logged in. */
    method Logout() returns (success: bool, message: string)
      modifies this
      ensures user == None
      ensures success && message == "Logged out"
    {
      user := None;
      return true, "Logged out";
    }
  }
}
