# GoBlog control panel, modelled in Dafny

GoBlog's control panel lets visitors do four things:

- sign up with an email and a password;
- log in and get a session cookie;
- log out;
- create blogs.

Each blog is provisioned by a shell script on a random port and served under `<name>.goblog.pw`. The panel keeps its state in four buckets of a bolt key-value store:

- `UsersBucket` maps an email to a bcrypt hash;
- `CookieBucket` maps a session token to an email;
- `BlogMappingBucket` maps a blog name to its website;
- `UserToBlog` maps an email to the JSON list of that user's blogs.

This project models that core, which is all in `main.go`:

- **Naming** (`naming.dfy`): the pure logic of blog names. The requested name is sanitised to its letters. The website is derived from the name, and the port from a random draw.
- **Tokens** (`tokens.dfy`): the session-token generator `RandomString`. It is an imperative method that fills a 20-character array. It is proved against `TokenOf`, a specification function of the random stream.
- **Panel** (`store.dfy`): the store as a class `Store`. Its four buckets are map fields that the handlers' methods update. The class also has:
  - a ghost `owner` field;
  - invariants for the sessions, the directory of blogs and the agreement between the user lists and the blog mapping (`Sessions`, `Directory`, `Registry`). Every handler-level method requires and preserves them. `AddBlogToUser` is a step inside `RecordBlog` and does not keep them by itself: the owner of the new name is recorded after it.

The module `Panel` ends with a whole visit: sign up, log in, create a blog, list the blogs (`SignUpLogInCreate`).

External collaborators become parameters:

- **bcrypt** is the pair of functions `hash(password, salt)` and `matches(hash, password)`, fixed when the store is made.
- **The random source** `src.Int63()` is a finite sequence `words` of non-negative 63-bit words. The method reports how many words it used.
- **The port draw** `rng.Intn(63000)` is a number `draw < 63000`.
- **The provisioning script `create.sh`** is a boolean `provisioned`. It is true when the script exits without error.
- **A request's `goblog` cookie** is an `Option<string>`.

Four choices the code in `main.go` forces on the model:

- **Rejected names.** A name that is taken and a name shorter than two letters share one branch (`main.go:258`). Both end in the same redirect, so the model has one outcome, `Rejected`, for both.
- **When the port is drawn.** The port is drawn before any check (`main.go:227-229`). `Port` is total over draws, and only the `Created` outcome carries the port.
- **The `DEBUG` flag.** A failed provisioning is ignored when `DEBUG` is set (`main.go:260`). The model keeps `Debug` as a constant with the source's value, `false`. `CreateBlog`'s contract covers both settings.
- **The empty email.** bolt refuses the empty key, and `addUser` ignores the error of its `Put` (`main.go:361-366`). So `addUser("")` reports success and stores nothing. The model writes the user only for a non-empty email and still returns `true`. `addBlogToUser` drops the same refusal (`main.go:296-302`), so the model appends a blog only for a non-empty user; its one caller never passes the empty user.

## Model

| member | source | states |
|---|---|---|
| Naming.IsLetter | main.go:239 | the characters of the class `[A-Za-z]`, the ones sanitising keeps |
| Naming.Sanitize | main.go:239-240 | the sanitised name consists of letters only and is no longer than the request |
| Naming.SanitizeAppend | main.go:239-240 | sanitising distributes over concatenation, so the letters keep their order |
| Naming.SanitizeSnoc | main.go:239-240 | one more input character is kept exactly when it is a letter |
| Naming.SanitizeCount | main.go:239-240 | every letter occurs in the result as often as in the input, and no other character occurs |
| Naming.SanitizeFixpoint | main.go:239-240 | a name is unchanged by sanitising if and only if it is all letters |
| Naming.SanitizeIdempotent | main.go:239-240 | sanitising twice is sanitising once |
| Naming.Website | main.go:241 | the website is the blog name followed by `.goblog.pw` |
| Naming.WebsiteInjective | main.go:241 | two names with the same website are the same name |
| Naming.Port | main.go:227-229 | the port for any `Intn(63000)` draw lies in [2000, 65000) |
| Tokens.Letter | main.go:373 | every alphabet index names an ASCII letter |
| Tokens.LetterOnto | main.go:373 | every ASCII letter is some index's letter, so the alphabet is exactly the 52 letters |
| Tokens.Indices | main.go:384-392 | the generator examines ten indices per word fetched, word after word |
| Tokens.WordIndices | main.go:374-392 | a word yields ten 6-bit indices, each below 64 |
| Tokens.Accepted | main.go:388 | rejection sampling keeps only indices below 52, and never more indices than were drawn |
| Tokens.Spell | main.go:383-396 | the j-th accepted letter sits at position 19 - j, so the buffer fills from its end |
| Tokens.TokenOf | main.go:382-397 | a stream yields a token exactly when it holds 20 accepted indices, and the token is then 20 characters long |
| Tokens.TokenAlphabet | main.go:382-397 | every generated token is 20 ASCII letters |
| Tokens.AcceptedSnoc | main.go:388-391 | one more index adds a letter exactly when it is below 52 |
| Tokens.IndicesAppend | main.go:384-387 | the indices of two streams in a row are the indices of each, in order |
| Tokens.AcceptedAppend | main.go:388-391 | rejection sampling of two runs of indices is the sampling of each, in order |
| Tokens.TokenOfPrefix | main.go:384 | once 20 indices have been accepted, later words do not change the token |
| Tokens.SpellPointwise | main.go:389 | a buffer holding the accepted letters at the mirrored positions is their spelling |
| Tokens.FetchStep | main.go:385-387 | fetching a new word when `remain` reaches 0 gives ten fresh indices |
| Tokens.ConsumeStep | main.go:388-393 | examining the lowest 6 bits, then shifting them out, advances the generator by one index |
| Tokens.RunsDry | main.go:384-394 | a stream that runs out before 20 letters are found yields no token |
| Tokens.TokenAtExit | main.go:384-396 | when the 20th letter is written, the token is fixed and the last word fetched was needed |
| Tokens.RandomString | main.go:382-397 | the buffer is the token of the stream; it uses only the words it needs, and all of them when the stream runs dry |
| Panel.RegistryGrows | main.go:259-303 | recording a fresh blog for a registered user keeps the user lists consistent with the mapping |
| Panel.ListedOnce | main.go:254-258 | under the registry invariant, a blog name appears in one user's list, once |
| Panel.Store.constructor | main.go:28-72 | the four buckets start empty and the invariants hold |
| Panel.Store.AddUser | main.go:347-370 | the sign-up succeeds exactly when the email is not registered; it stores the hash on success and changes nothing on failure |
| Panel.Store.SignUp | main.go:155-183 | a successful sign-up stores the user and a session under a newly drawn token; a failed one writes nothing |
| Panel.Store.VerifyUser | main.go:320-345 | the login succeeds exactly when the stored hash matches the password; a success adds exactly one session naming the user; a failure leaves the cookies unchanged |
| Panel.Store.GetUserFromCookie | main.go:407-423 | a token's user, or "" for a token with no session |
| Panel.Store.GetUser | main.go:399-405 | the cookie's user, or "" without a cookie |
| Panel.Store.Logout | main.go:100-118 | the token's session is deleted, so the token then names no one, and all other sessions are kept |
| Panel.Store.GetBlogsForUser | main.go:305-318 | the user's list, or [] when the user has no record |
| Panel.Store.AddBlogToUser | main.go:284-303 | the blog is appended to the end of the user's list, and a list is started when there is none; for the refused empty user nothing is written |
| Panel.Store.RecordBlog | main.go:265-270 | the name is mapped to its website and the blog appended to the user's list; the invariants are kept |
| Panel.Store.CreateBlog | main.go:210-282 | the outcome covers every case: no user gives Unauthenticated; a taken or short name gives Rejected; otherwise the outcome is Created or ProvisioningFailed. Every case except Created writes nothing; Created writes the mapping and appends to the user's list |
| Panel.SignUpLogInCreate | main.go:155-282 | signing up, logging in with the same password and creating a fresh blog succeed, and the user's list is then that one blog |

## Left out

- HTTP handling: request parsing, redirects, templates, static files and cookie attributes (expiry, `HttpOnly`, `MaxAge`). Only the cookie value is modelled.
- Opening and closing the database on every call, and its error paths. Every store operation is modelled as succeeding, except the refused empty key, which `AddUser` and `AddBlogToUser` model as writing nothing.
- The `init` bucket creation beyond starting empty, the unused `PortBucket`, and the commented-out URL check and port bookkeeping.
- bcrypt's internals and the ignored error of `GenerateFromPassword`. Hashing is an abstract function of the password and a salt.
- Running `create.sh` and printing its output. Only whether it succeeded is modelled.
- Seeding the random sources from the clock. Randomness is a parameter.
- JSON encoding of the user lists. A list is kept as a sequence, so `getBlogsForUser`'s fallback to an empty list on a malformed record is not modelled.
- Concurrent requests. Each operation is atomic in the model, while the source reads and writes in separate transactions.
- Tokens.RandomString: the stream of words is finite, so the method can report that it ran dry. The session methods require a stream that yields a token, because the real source never runs out.
- Panel.Store.Logout: a request without a cookie makes the source dereference a nil cookie and fail before it touches the store. The model leaves the store unchanged in that case.
- Panel.Registry: the invariant does not state the converse, that every mapped name is in some user's list.
