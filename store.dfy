/**
 * The control panel's persistent state, the four buckets of its key-value
 * store, and the operations behind sign-up, login, logout, session lookup,
 * blog creation and blog listing.
 */
module Panel {
  import opened Wrappers
  import opened Naming
  import opened Tokens

  /** One blog in a user's list. */
  datatype BlogDetails = BlogDetails(blogname: string, website: string)

  /** The build flag under which a failing provisioning script is ignored. */
  const Debug: bool := false

  /** How a blog-creation request ends. */
  datatype Creation =
    | Unauthenticated                        // the request's cookie names no session
    | Rejected                               // the name is taken or shorter than two letters
    | ProvisioningFailed                     // the provisioning script reported an error
    | Created(blog: BlogDetails, port: int)  // the blog is recorded and served on `port`

  /**
   * No account has the empty email, which the store refuses as a key, and
   * every session token was written by the generator and names a registered
   * user or the empty email of a sign-up that stored nothing.
   */
  ghost predicate Sessions(users: map<string, string>, cookies: map<string, string>) {
    && "" !in users
    && (forall t :: t in cookies ==> IsToken(t) && (cookies[t] == "" || cookies[t] in users))
  }

  /**
   * Every mapped name passed the creation checks (a sanitised name of two
   * letters or more) and maps to its own website.
   */
  ghost predicate Directory(blogMapping: map<string, string>) {
    forall n :: n in blogMapping ==> |n| > 1 && AllLetters(n) && blogMapping[n] == Website(n)
  }

  /**
   * The user lists agree with the blog mapping: every list belongs to a
   * registered user, every listed blog is mapped to the website the list
   * records for it, every listed name is owned by the user whose list holds
   * it (so no two lists share a name), and no list holds a name twice.
   */
  ghost predicate Registry(users: map<string, string>, blogMapping: map<string, string>,
                           owner: map<string, string>, userToBlog: map<string, seq<BlogDetails>>)
  {
    && owner.Keys == blogMapping.Keys
    && (forall u :: u in userToBlog ==> u != "" && u in users)
    && (forall u, i :: u in userToBlog && 0 <= i < |userToBlog[u]| ==>
          && userToBlog[u][i].blogname in owner
          && owner[userToBlog[u][i].blogname] == u
          && blogMapping[userToBlog[u][i].blogname] == userToBlog[u][i].website)
    && (forall u, i, j :: u in userToBlog && 0 <= i < j < |userToBlog[u]| ==>
          userToBlog[u][i].blogname != userToBlog[u][j].blogname)
  }

  /**
   * Recording a fresh, unmapped blog for a registered user — the mapping
   * written, the blog appended to the user's list — keeps the registry
   * consistent.
   */
  lemma RegistryGrows(users: map<string, string>, blogMapping: map<string, string>,
                      owner: map<string, string>, userToBlog: map<string, seq<BlogDetails>>,
                      user: string, name: string, website: string)
    requires Registry(users, blogMapping, owner, userToBlog)
    requires user != "" && user in users
    requires name !in blogMapping
    ensures Registry(users, blogMapping[name := website], owner[name := user],
                     userToBlog[user := (if user in userToBlog then userToBlog[user] else []) + [BlogDetails(name, website)]])
  {
  }

  /** Under the registry, a blog name sits in one list only, at one position. */
  lemma ListedOnce(users: map<string, string>, blogMapping: map<string, string>,
                   owner: map<string, string>, userToBlog: map<string, seq<BlogDetails>>,
                   u: string, i: int, v: string, j: int)
    requires Registry(users, blogMapping, owner, userToBlog)
    requires u in userToBlog && 0 <= i < |userToBlog[u]|
    requires v in userToBlog && 0 <= j < |userToBlog[v]|
    requires userToBlog[u][i].blogname == userToBlog[v][j].blogname
    ensures u == v && i == j
  {
  }

  class Store {
    /**
     * The password hashing library: `hash(password, salt)` is the hash it
     * generates with the salt it draws, and `matches(hash, password)` says
     * that the comparison of a stored hash with a password succeeds.
     */
    const hash: (string, nat) -> string
    const matches: (string, string) -> bool

    /** UsersBucket: email to password hash. */
    var users: map<string, string>
    /** CookieBucket: session token to email. */
    var cookies: map<string, string>
    /** BlogMappingBucket: blog name to website. */
    var blogMapping: map<string, string>
    /** UserToBlog: email to the blogs it created, oldest first. */
    var userToBlog: map<string, seq<BlogDetails>>
    /** The user whose list each mapped blog name was added to. */
    ghost var owner: map<string, string>

    /** The accounts and the sessions are well formed. */
    ghost predicate SessionsValid()
      reads this`cookies, this`users
    {
      Sessions(users, cookies)
    }

    /** The blog mapping is a well-formed directory. */
    ghost predicate DirectoryValid()
      reads this`blogMapping
    {
      Directory(blogMapping)
    }

    /** The user lists and the mapping record the same blogs. */
    ghost predicate RegistryValid()
      reads this`users, this`blogMapping, this`owner, this`userToBlog
    {
      Registry(users, blogMapping, owner, userToBlog)
    }

    ghost predicate Valid()
      reads this
    {
      SessionsValid() && DirectoryValid() && RegistryValid()
    }

    /** A store whose buckets exist and are empty. */
    constructor (hash: (string, nat) -> string, matches: (string, string) -> bool)
      ensures this.hash == hash && this.matches == matches
      ensures users == map[] && cookies == map[] && blogMapping == map[] && userToBlog == map[]
      ensures Valid()
    {
      this.hash := hash;
      this.matches := matches;
      users, cookies, blogMapping, userToBlog := map[], map[], map[], map[];
      owner := map[];
    }

    /**
     * addUser: registers `email` with the hash of `password` unless the
     * email is registered already, in which case nothing is written. The
     * store refuses the empty email as a key and the refusal is dropped, so
     * the empty email is reported as registered while nothing is stored.
     */
    method AddUser(email: string, password: string, salt: nat) returns (ok: bool)
      requires Valid()
      modifies this`users
      ensures Valid()
      ensures ok <==> email !in old(users)
      ensures users == if ok && email != "" then old(users)[email := hash(password, salt)] else old(users)
    {
      var hashed := hash(password, salt);
      if email !in users {
        if email != "" {
          users := users[email := hashed];
        }
        ok := true;
      } else {
        ok := false;
      }
    }

    /**
     * The sign-up handler: registers the user and, on success, opens a
     * session for it under a fresh token drawn from `words`.
     */
    method SignUp(email: string, password: string, salt: nat, words: seq<Int63>)
      returns (ok: bool, token: string)
      requires Valid()
      requires TokenOf(words).Some?
      modifies this`users, this`cookies
      ensures Valid()
      ensures ok <==> email !in old(users)
      ensures users == if ok && email != "" then old(users)[email := hash(password, salt)] else old(users)
      ensures ok ==> TokenOf(words) == Some(token) && cookies == old(cookies)[token := email]
      ensures !ok ==> cookies == old(cookies)
    {
      token := "";
      ok := AddUser(email, password, salt);
      if ok {
        var drawn, _ := RandomString(words);
        TokenAlphabet(words);
        token := drawn.value;
        cookies := cookies[token := email];
      }
    }

    /**
     * verifyUser: the login succeeds iff the email is registered and its
     * stored hash matches the password; a success opens a session under a
     * fresh token drawn from `words`, a failure writes nothing.
     */
    method VerifyUser(email: string, password: string, words: seq<Int63>)
      returns (ok: bool, token: string)
      requires Valid()
      requires TokenOf(words).Some?
      modifies this`cookies
      ensures Valid()
      ensures ok <==> email in users && matches(users[email], password)
      ensures ok ==> TokenOf(words) == Some(token) && cookies == old(cookies)[token := email]
      ensures ok ==> GetUserFromCookie(token) == email
      ensures !ok ==> cookies == old(cookies)
    {
      token := "";
      ok := email in users && matches(users[email], password);
      if ok {
        var drawn, _ := RandomString(words);
        TokenAlphabet(words);
        token := drawn.value;
        cookies := cookies[token := email];
      }
    }

    /** getUserFromCookie: the email a token's session belongs to, or "" when there is none. */
    function GetUserFromCookie(token: string): (email: string)
      reads this`cookies
      ensures token in cookies ==> email == cookies[token]
      ensures token !in cookies ==> email == ""
    {
      if token in cookies then cookies[token] else ""
    }

    /** getUser: the signed-in user of a request with or without a session cookie, or "". */
    function GetUser(cookie: Option<string>): (user: string)
      reads this`cookies
      ensures cookie.None? ==> user == ""
      ensures cookie.Some? ==> user == GetUserFromCookie(cookie.value)
    {
      if cookie.Some? then GetUserFromCookie(cookie.value) else ""
    }

    /**
     * The logout handler: deletes the session of the request's cookie, so
     * that its token no longer names anyone. Without a cookie the handler
     * fails before it reaches the store.
     */
    method Logout(cookie: Option<string>)
      requires Valid()
      modifies this`cookies
      ensures Valid()
      ensures cookie.Some? ==> cookies == old(cookies) - {cookie.value}
      ensures cookie.Some? ==> GetUserFromCookie(cookie.value) == ""
      ensures cookie.None? ==> cookies == old(cookies)
    {
      if cookie.Some? {
        cookies := cookies - {cookie.value};
      }
    }

    /** getBlogsForUser: the user's blogs, oldest first; none when it has no record. */
    function GetBlogsForUser(user: string): (blogs: seq<BlogDetails>)
      reads this`userToBlog
      ensures user in userToBlog ==> blogs == userToBlog[user]
      ensures user !in userToBlog ==> blogs == []
    {
      if user in userToBlog then userToBlog[user] else []
    }

    /**
     * addBlogToUser: appends a blog to the end of the user's list, starting
     * one if it has none. The store refuses the empty email as a key and the
     * refusal is dropped, so for the empty user nothing is written. This is a
     * step of `RecordBlog` and does not keep the registry by itself: the
     * ownership of the new name is recorded after it.
     */
    method AddBlogToUser(user: string, blogname: string, website: string)
      modifies this`userToBlog
      ensures userToBlog == if user == "" then old(userToBlog)
                            else old(userToBlog)[user := old(GetBlogsForUser(user)) + [BlogDetails(blogname, website)]]
    {
      var existing := GetBlogsForUser(user);
      if user != "" {
        userToBlog := userToBlog[user := existing + [BlogDetails(blogname, website)]];
      }
    }

    /**
     * The writes of a successful blog creation: the mapping of the new name to
     * its website, then the blog appended to the user's list.
     */
    method RecordBlog(user: string, blogname: string)
      requires Valid()
      requires user != "" && user in users
      requires blogname !in blogMapping && |blogname| > 1 && AllLetters(blogname)
      modifies this`blogMapping, this`userToBlog, this`owner
      ensures Valid()
      ensures blogMapping == old(blogMapping)[blogname := Website(blogname)]
      ensures userToBlog == old(userToBlog)[user := old(GetBlogsForUser(user)) + [BlogDetails(blogname, Website(blogname))]]
    {
      ghost var mapping0, owner0, lists0 := blogMapping, owner, userToBlog;
      var website := Website(blogname);
      blogMapping := blogMapping[blogname := website];
      AddBlogToUser(user, blogname, website);
      owner := owner[blogname := user];
      RegistryGrows(users, mapping0, owner0, lists0, user, blogname, website);
    }

    /**
     * The blog-creation handler. The requested name is stripped of every
     * non-letter and its website derived; the request needs a signed-in
     * user, a free name and a name of at least two letters. The port is
     * `Intn(PortSpan) = draw` shifted into range and `provisioned` is the
     * outcome of the provisioning script. Only a successful provisioning
     * writes: the mapping first, then the user's list.
     */
    method CreateBlog(cookie: Option<string>, rawName: string, draw: nat, provisioned: bool)
      returns (r: Creation)
      requires Valid()
      requires draw < PortSpan
      modifies this`blogMapping, this`userToBlog, this`owner
      ensures Valid()
      ensures GetUser(cookie) == "" ==> r == Unauthenticated
      ensures (GetUser(cookie) != "" && (Sanitize(rawName) in old(blogMapping) || |Sanitize(rawName)| <= 1))
                ==> r == Rejected
      ensures (GetUser(cookie) != "" && Sanitize(rawName) !in old(blogMapping) && |Sanitize(rawName)| > 1)
                ==> r == if provisioned || Debug
                         then Created(BlogDetails(Sanitize(rawName), Website(Sanitize(rawName))), Port(draw))
                         else ProvisioningFailed
      ensures !r.Created? ==> blogMapping == old(blogMapping) && userToBlog == old(userToBlog)
      ensures r.Created? ==> blogMapping == old(blogMapping)[r.blog.blogname := r.blog.website]
      ensures r.Created? ==> userToBlog == old(userToBlog)[GetUser(cookie) := old(GetBlogsForUser(GetUser(cookie))) + [r.blog]]
    {
      var port := Port(draw);
      var blogname := Sanitize(rawName);
      var website := Website(blogname);
      var username := GetUser(cookie);
      if username == "" {
        return Unauthenticated;
      }
      if blogname in blogMapping || |blogname| <= 1 {
        return Rejected;
      }
      if !provisioned && !Debug {
        return ProvisioningFailed;
      }
      RecordBlog(username, blogname);
      r := Created(BlogDetails(blogname, website), port);
    }
  }

  /**
   * A whole visit: sign up, log in again with the same password, create a
   * blog under the new session, and list the user's blogs. `hash` and
   * `matches` are taken to agree on the password, as bcrypt's own contract
   * promises.
   */
  method SignUpLogInCreate(store: Store, email: string, password: string, salt: nat,
                           signUpWords: seq<Int63>, logInWords: seq<Int63>,
                           rawName: string, draw: nat)
    returns (loggedIn: bool, r: Creation, blogs: seq<BlogDetails>)
    requires store.Valid()
    requires email != "" && email !in store.users
    requires store.matches(store.hash(password, salt), password)
    requires TokenOf(signUpWords).Some? && TokenOf(logInWords).Some?
    requires Sanitize(rawName) !in store.blogMapping && |Sanitize(rawName)| > 1
    requires draw < PortSpan
    modifies store
    ensures store.Valid()
    ensures loggedIn
    ensures r == Created(BlogDetails(Sanitize(rawName), Website(Sanitize(rawName))), Port(draw))
    ensures blogs == [r.blog]
  {
    var _, _ := store.SignUp(email, password, salt, signUpWords);
    var token;
    loggedIn, token := store.VerifyUser(email, password, logInWords);
    r := store.CreateBlog(Some(token), rawName, draw, true);
    blogs := store.GetBlogsForUser(email);
  }
}
