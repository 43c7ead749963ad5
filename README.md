# NestJS blog API: a Dafny model of its services, schemas and validators

This project models the core of a NestJS and MongoDB blog backend. Users sign
up and sign in, and a user is locked out after repeated wrong passwords.
Bearer tokens are re-checked against the user table. Blogs can be edited
only by their authors, are soft-deleted and can be liked. Their listing is
cached in Redis under the key `blogs_all`. Comments can be edited and
deleted only by their authors and are soft-deleted too. Profiles are updated
partially. Request bodies are described by DTO classes that carry
class-validator decorators.

The model is organised as follows:

- **Store.** One `Database` object holds the user table as a sequence in
  insertion order, so `findOne({$or: …})` finds the first match. The blog
  and comment tables are maps keyed by ObjectId, and a counter hands out
  fresh ObjectIds. Its invariant `Valid()` carries the schema rules: required
  fields, trimmed title and content, unique ids, email and userName, likes
  without duplicates, and keys below the counter. Every write goes through
  a small store method (`AppendUser`, `SaveUser`, `ReplaceUser`, `PutBlog`,
  `PutComment`, `NewId`) that keeps `Valid()`.
- **Sign-in.** The two divergent sign-in services are separate modules:
  - `UserAuthFive` locks after 5 failures and resets only when there is
    something to reset;
  - `UserAuthTen` locks after 10 failures, always resets and saves, and
    reports the seconds left on a lock.

  Each one has a pure `SigninStep` that states the decision for one attempt.
  Its `Signin` method updates the record step by step, and its `ensures`
  ties the method to `SigninStep`. The lemmas replay sequences of attempts.
- **Blog cache.** `BlogService` holds the cache in a `RedisCache` object
  with one `Option` slot. `FindAll` reads through it. Every successful
  create, update, remove or like clears it, and `CacheFresh` states that
  a filled slot holds what a miss would compute.
- **Validators.** The DTO rules are functions from the request body to the
  set of messages of the checks that fail. A field of the body is written as
  `JsValue`: missing, null, a string, or any other JSON value.
- **Time and hashing.** Time is an integer millisecond clock passed in as
  `now`. bcrypt is an opaque `Hash`/`Compare` pair.
- **Store failures.** These appear as a parameter only where the source
  catches them: an `Io` outcome for signup and signin, and a failed insert
  for blog creation.

Neither `src/main.ts` nor `src/app.module.ts` installs a `ValidationPipe`.
The DTO decorators are therefore never applied to a request. The rule
modules state what each DTO declares, and the services take their input as
it arrives. Comment writes and profile updates do not clear `blogs_all`.
A cached listing can therefore show stale comment counts and userNames
until it expires. The model keeps this, because those methods do not touch
the cache.

## Model

| member | source | states |
|---|---|---|
| Base.Trim | src/blog/blog.schema.ts:7 | the schema's `trim: true` leaves no JavaScript whitespace at either end and never lengthens the string |
| Base.TrimIsSlice | src/blog/blog.schema.ts:7 | the trimmed value is the slice of the input left once exactly its leading and trailing whitespace is removed |
| Base.TrimIdempotent | src/blog/blog.schema.ts:7 | trimming an already trimmed value changes nothing, so a stored title or comment stays valid when it is saved again |
| Base.TrimEmptyIffBlank | src/comments/comments.schema.ts:6 | a value trims to the empty string, and so fails `required`, exactly when it is all whitespace |
| Base.DecimalString | src/user-auth/user-auth.service.ts:113 | the number interpolated into the lock message is a non-empty string of decimal digits that denotes that number |
| UserSchema.Hash | src/services/user-auth.service.ts:51-52 | the stand-in for `bcrypt.hash`: a stored password is a hash, never the plain text |
| UserSchema.Compare | src/services/user-auth.service.ts:114 | the stand-in for `bcrypt.compare`: a password matches exactly the hash made from it |
| UserSchema.HasRequiredFields | src/schemas/user-blog.schema.ts:6-16 | `required` on name, email and userName: each is a non-empty string |
| UserSchema.NewUser | src/schemas/user-blog.schema.ts:6-22 | creation succeeds exactly when name, email and userName are non-empty; a new user starts with `failedLoginAttempts = 0` and `lockUntil = null`; a failure is a validation error |
| UserSchema.IsLocked | src/services/user-auth.service.ts:108 | an account is locked exactly when `lockUntil` is set and later than now (the same test at src/user-auth/user-auth.service.ts:108 and src/strategy/jwt.strategy.ts:33) |
| UserSchema.UniqueKeys | src/schemas/user-blog.schema.ts:9-13 | no two stored users share an id, an email or a userName, as the unique indexes enforce |
| UserSchema.ValidTable | src/schemas/user-blog.schema.ts:6-22 | the user table has unique keys, every required field present and every id already handed out |
| UserSchema.ClashesWithOthers | src/services/user-blog.service.ts:37-43 | a `$set` on one user breaks a unique index exactly when another user already has the new email or userName |
| UserSchema.Selects | src/services/user-auth.service.ts:44-46 | the `$or: [{ email }, { userName }]` filter selects a user with either key, and the `_id` filter the user with that id |
| UserSchema.FindOne | src/services/user-auth.service.ts:97-99 | `findOne` returns the first record the filter selects, and nothing exactly when no record is selected |
| UserSchema.FindFrom | src/services/user-auth.service.ts:44-46 | the search from a position finds the first selected record at or after it |
| UserSchema.FindByIdExact | src/strategy/jwt.strategy.ts:26 | with unique ids, looking up a stored user's id finds exactly that user |
| UserSchema.Public | src/services/user-auth.service.ts:22-29 | `sanitizeUser` keeps id, name, userName and email of the record; its result type has no password field |
| UserSchema.PublicHidesSecrets | src/services/user-auth.service.ts:22-29 | the projection does not depend on the hash or the lockout fields |
| UserSchema.WithoutPassword | src/strategy/jwt.strategy.ts:26 | `.select('-password')` keeps every field but the hash |
| UserSchema.WithoutPasswordHidesHash | src/services/user-blog.service.ts:14 | the projection read by `findById` does not depend on the stored hash |
| Store.Database.constructor | src/schemas/user-blog.schema.ts:25 | an empty store satisfies the table invariants |
| Store.Database.AppendUser | src/services/user-auth.service.ts:53-58 | `userModel.create` of a user whose email and userName are free appends exactly that record under the next ObjectId and keeps the invariant |
| Store.Database.SaveUser | src/services/user-auth.service.ts:127 | `save()` of a record that keeps its keys either fails without writing or replaces exactly that record, keeping uniqueness |
| Store.Database.ReplaceUser | src/services/user-blog.service.ts:37-43 | a `$set` that breaks neither unique index replaces exactly that record and keeps the invariant |
| Store.Database.PutBlog | src/blog/blog.service.ts:186 | saving a well-formed blog replaces exactly its entry and keeps the invariant |
| Store.Database.PutComment | src/services/comments.service.ts:50 | saving a well-formed comment replaces exactly its entry and keeps the invariant |
| Store.Database.NewId | src/blog/blog.service.ts:97 | a new ObjectId is used by no user, blog or comment |
| BlogSchema.NewBlog | src/blog/blog.schema.ts:6-44 | creation succeeds exactly when the trimmed title and the content are non-empty; the title is stored trimmed, with `likes = []` and `isDeleted = false`, and the record satisfies the table invariant |
| BlogSchema.PassesValidation | src/blog/blog.schema.ts:7-11 | the `required` validators: title and content are non-empty |
| BlogSchema.WellFormed | src/blog/blog.schema.ts:6-44 | what holds of a stored blog: required fields present, the title already trimmed and the likes free of duplicates |
| BlogSchema.ValidTable | src/blog/blog.schema.ts:6-44 | every stored blog is well-formed, stored under its own id and below the next id |
| BlogSchema.PutKeepsValid | src/blog/blog.schema.ts:6-44 | storing a well-formed blog under its own id keeps the table invariant |
| BlogSchema.Pull | src/blog/blog.service.ts:235 | `$pull` removes every occurrence of the user, keeps every other liker and keeps likes duplicate-free |
| BlogSchema.PullAbsent | src/blog/blog.service.ts:235 | pulling a user who is not there changes nothing |
| BlogSchema.AddToSet | src/blog/blog.service.ts:236 | `$addToSet` adds the user, keeps every other liker and never creates a duplicate |
| BlogSchema.AppendFresh | src/blog/blog.service.ts:236 | appending an id not already present keeps a sequence duplicate-free |
| BlogSchema.ToggleLike | src/blog/blog.service.ts:232-236 | the user is a liker afterwards exactly when they were not before; other likers are unchanged and likes stay duplicate-free |
| BlogSchema.ToggleTwice | src/blog/blog.service.ts:225-240 | two toggles by one user restore the set of likers, and restore the sequence when the user had not liked |
| CommentSchema.NewComment | src/comments/comments.schema.ts:5-16 | creation succeeds exactly when the trimmed content is non-empty; the content is stored trimmed, with `isDeleted = false` |
| CommentSchema.WellFormed | src/comments/comments.schema.ts:6-7 | what holds of a stored comment: the content is non-empty and already trimmed |
| CommentSchema.ValidTable | src/comments/comments.schema.ts:5-16 | every stored comment is well-formed, stored under its own id and below the next id |
| CommentSchema.PutKeepsValid | src/comments/comments.schema.ts:5-16 | storing a well-formed comment under its own id keeps the table invariant |
| CommentSchema.LiveComments | src/blog/blog.service.ts:131-134 | the comments `countDocuments({ blogId, isDeleted: false })` counts: those of the blog that are not soft-deleted |
| Query.NewestFirst | src/blog/blog.service.ts:127 | `sort({ createdAt: -1 })`: every key exactly once, in non-increasing creation time |
| Query.NewestExists | src/services/comments.service.ts:31 | a non-empty set of timestamped keys has a newest element |
| Query.SortNewestFirst | src/blog/blog.service.ts:127 | `sort({ createdAt: -1 })` lists every key exactly once, in non-increasing creation time |
| UserAuth.Taken | src/services/user-auth.service.ts:44-47 | an email or userName is taken exactly when `findOne({ $or: … })` finds a user |
| UserAuth.CatchBadRequest | src/services/user-auth.service.ts:69-78 | a BadRequest is rethrown unchanged and anything else becomes an InternalServerError with the operation's message |
| UserAuth.Signup | src/services/user-auth.service.ts:31-79 | a taken email or userName fails with 'User already exists' and inserts nothing; any other failure gives 'Unable to create new user, try again ...' and inserts nothing; success appends one user with the hashed password and the lockout defaults, and returns its public projection with a token whose subject is its id (same code at src/user-auth/user-auth.service.ts:31-80) |
| UserAuthFive.SigninStep | src/services/user-auth.service.ts:108-139 | a live lock refuses before the password is compared and changes nothing; a wrong password adds exactly one failure and locks for 900000 ms exactly when the count reaches 5; a correct password clears the counters and writes only when they were not clean |
| UserAuthFive.Signin | src/services/user-auth.service.ts:81-166 | an unknown identifier fails with 'Invalid credentials' and changes nothing; otherwise the found record is updated and saved as `SigninStep` decides; only BadRequest escapes the catch; the token carries the user id and purpose 'signup' |
| UserAuthFive.Replay | src/services/user-auth.service.ts:117-139 | a sequence of attempts never changes the user's id or hash |
| UserAuthFive.ConsecutiveWrongPasswords | src/services/user-auth.service.ts:117-128 | from a clean record the k-th consecutive wrong password leaves the count at k; the first four leave the account unlocked and the fifth locks it from that attempt |
| UserAuthFive.LockedOutAfterFive | src/services/user-auth.service.ts:108-112 | within fifteen minutes of the fifth failure every attempt, the correct password included, is refused and changes nothing |
| UserAuthFive.RelockAfterExpiry | src/services/user-auth.service.ts:108-125 | the counter is not reset when a lock expires, so one more wrong password relocks at once |
| UserAuthTen.SecondsLeft | src/user-auth/user-auth.service.ts:109-111 | the integer ceiling of the remaining time in seconds is at least 1, covers the remaining time, and is at most 900 for a lock set by sign-in |
| UserAuthTen.LockedMessage | src/user-auth/user-auth.service.ts:112-114 | the refusal text of a locked account with the seconds left interpolated |
| UserAuthTen.LockedMessageDeterminesSeconds | src/user-auth/user-auth.service.ts:112-114 | two different seconds-left figures never give the same message, so the text names the figure |
| UserAuthTen.SigninStep | src/user-auth/user-auth.service.ts:108-131 | a live lock refuses with the seconds left and changes nothing; a wrong password adds exactly one failure and locks exactly when the count reaches 10; a correct password always clears and saves |
| UserAuthTen.Signin | src/user-auth/user-auth.service.ts:82-157 | an unknown identifier fails with 'Invalid email or username' and changes nothing; otherwise the record is updated and saved as `SigninStep` decides; the token payload carries only the user id |
| UserAuthTen.Replay | src/user-auth/user-auth.service.ts:118-131 | a sequence of attempts never changes the user's id or hash |
| UserAuthTen.ConsecutiveWrongPasswords | src/user-auth/user-auth.service.ts:118-124 | from a clean record the first nine consecutive wrong passwords leave `lockUntil` unset and the tenth sets it fifteen minutes after that attempt |
| UserAuthTen.LockedOutAfterTen | src/user-auth/user-auth.service.ts:108-115 | while the lock holds, an attempt is refused with a seconds-left figure between 1 and 900 and changes nothing |
| UserAuthTen.ResetAfterExpiry | src/user-auth/user-auth.service.ts:129-131 | after the lock lapses the correct password signs in and clears both counters |
| JwtStrategy.Construct | src/strategy/jwt.strategy.ts:15-18 | construction succeeds exactly when `TOKEN` is configured and non-empty, and otherwise throws 'JWT_SECRET is not defined in configuration' |
| JwtStrategy.Validate | src/strategy/jwt.strategy.ts:25-38 | 'User no longer exists' exactly when no user has the subject id; a user is returned only when it exists and is not locked; 'Account is currently locked' otherwise |
| JwtStrategy.ValidateStoredUser | src/strategy/jwt.strategy.ts:26-37 | for a stored user, a live lock refuses the still-valid token and an unlocked account gets its record without the password |
| JwtGuard.HandleRequest | src/guard/jwt.guard.ts:20-31 | the user is returned exactly when there is no error and a user; an error is rethrown as it is even with a user; otherwise Unauthorized 'Access Denied: ' plus the info message, or 'Invalid Token' when there is none |
| BlogService.SanitizeBlog | src/blog/blog.service.ts:44-81 | the projection copies the blog's fields, counts its likes, carries the given comment count and has an author userName exactly when the author was populated; a null author throws |
| BlogService.Populate | src/blog/blog.service.ts:126 | `populate('author', 'userName')` gives the author's userName when the user exists and null exactly when no user has that id |
| BlogService.LiveCommentCount | src/blog/blog.service.ts:131-134 | the number of live comments of the blog |
| BlogService.LiveBlogStamps | src/blog/blog.service.ts:124-125 | the creation times of the blogs `find({ isDeleted: false })` selects, the ones not soft-deleted |
| BlogService.Describes | src/blog/blog.service.ts:44-81 | a row shows its blog's id, title, content, cover image, creation time, like count and live comment count, and its author's id with that user's userName |
| BlogService.ListingFor | src/blog/blog.service.ts:129-137 | the listing succeeds exactly when every row can be built, and row k is the projection of the k-th blog with its live comment count |
| BlogService.PrefixFailure | src/blog/blog.service.ts:129-137 | one row that cannot be built makes the whole listing fail |
| BlogService.RowDescribes | src/blog/blog.service.ts:131-135 | row k is blog k of the order, with its title, content, cover image, creation time, like count, live comment count and its author's actual userName |
| BlogService.ListingShape | src/blog/blog.service.ts:124-137 | a listing lists exactly the live blogs, each once, newest first, each row showing its blog's fields, its likes and live comments counted and its author's userName |
| BlogService.RedisCache.constructor | src/blog/blog.service.ts:119-140 | the `blogs_all` slot starts empty |
| BlogService.CacheFresh | src/blog/blog.service.ts:119-140 | a filled `blogs_all` slot holds a listing a miss would compute from the current tables |
| BlogService.FindAll | src/blog/blog.service.ts:118-142 | a hit returns the cached listing unchanged; a miss computes the newest-first listing of live blogs and caches it; a fresh cache stays fresh |
| BlogService.BuildRows | src/blog/blog.service.ts:129-137 | the miss path builds one row per listed blog in order, failing as soon as a row cannot be built, exactly as `ListingFor` describes |
| BlogService.FindOne | src/blog/blog.service.ts:146-166 | NotFound 'Blog not found or has been removed' exactly when the blog is absent or soft-deleted; a live blog whose author no longer exists throws a TypeError; otherwise the blog's title, content, cover image and creation time with its like count, live comment count and its author's actual userName |
| BlogService.Create | src/blog/blog.service.ts:85-114 | succeeds exactly when the upload (if any) and the insert (`insertFails` false) succeed and the record is valid; the cover image is attached exactly when a file was uploaded; any failure is 'Failed to create blog' and leaves the table and the cache untouched; success clears the cache |
| BlogService.Patched | src/blog/blog.service.ts:185 | `Object.assign` changes only the supplied fields and an empty patch changes nothing |
| BlogService.Update | src/blog/blog.service.ts:169-195 | absent or deleted gives NotFound and a non-author gives Forbidden, with nothing changed; otherwise only the supplied fields change, and the cache is cleared, when the record passes validation; the reply has `commentsCount` 0 and an unpopulated author |
| BlogService.Remove | src/blog/blog.service.ts:199-222 | absent or deleted gives NotFound and a non-author gives Forbidden, with nothing changed; otherwise only `isDeleted` is set, the record stays and the cache is cleared |
| BlogService.ToggleLike | src/blog/blog.service.ts:225-259 | absent or deleted gives NotFound with nothing changed; otherwise the like is toggled and the cache cleared, and the message is 'Like removed' exactly when the user had liked |
| CommentService.Create | src/services/comments.service.ts:17-25 | stores the trimmed content under a fresh id for the caller and the given blog without checking that blog; only blank content fails |
| CommentService.PopulateAuthor | src/services/comments.service.ts:30 | the populated author, with that user's id and userName, is present exactly when the author exists and null otherwise |
| CommentService.LiveCommentStamps | src/services/comments.service.ts:29 | the creation times of the live comments of that blog, which the query selects |
| CommentService.FindByBlog | src/services/comments.service.ts:27-32 | returns exactly the live comments of the blog, each once, newest first, each with its author populated, or null when that user is gone |
| CommentService.Update | src/services/comments.service.ts:34-51 | absent or deleted gives NotFound and a non-author gives Forbidden; the author's content that trims to empty fails `save()` with a ValidationError; every failure leaves the table unchanged; success changes only the content, stored trimmed |
| CommentService.RemoveAllowedAsWritten | src/services/comments.service.ts:58 | the ownership test as written: a caller id passes only when it is a string equal to the author's |
| CommentService.RemoveAsWrittenRefusesAuthor | src/services/comments.service.ts:58 | with the ObjectId the controllers pass, the ownership test as written refuses the comment's own author |
| CommentService.RemoveAllowed | src/services/comments.service.ts:58 | the corrected ownership test: the caller's id equals the author's |
| CommentService.Remove | src/services/comments.service.ts:53-65 | only an absent comment is NotFound, so a deleted one can be deleted again; a non-author gets Forbidden; success sets only `isDeleted` and keeps the record |
| UserBlogService.FindById | src/services/user-blog.service.ts:13-17 | NotFound 'User with ID … not found' exactly when no user has the id; otherwise that user's record without the password |
| UserBlogService.GetProfile | src/services/user-blog.service.ts:19-27 | exactly id, name, userName and email of the stored user, or the NotFound of `findById` |
| UserBlogService.PassesValidators | src/services/user-blog.service.ts:41 | `runValidators` refuses a `$set` that empties a required field |
| UserBlogService.Applied | src/services/user-blog.service.ts:30-40 | `$set` changes only the supplied fields, stores a supplied password as its hash and leaves the lockout fields alone |
| UserBlogService.UpdateProfile | src/services/user-blog.service.ts:29-53 | a rejected value, an unknown id (NotFound 'User not found') or a duplicate email or userName changes nothing; otherwise the record becomes `Applied` and the result is its public projection |
| UserBlogService.UpdateKeepsLockout | src/services/user-blog.service.ts:32-35 | a profile update leaves the lockout counters alone and a supplied password is stored only as its hash |
| Validators.IsString | src/dtos/user.signup.dto.ts:4 | `@IsString()` accepts exactly string values |
| Validators.IsNotEmpty | src/dtos/user.signup.dto.ts:5 | `@IsNotEmpty()` refuses exactly '', null and undefined |
| Validators.IsMissing | src/dtos/update.user.dto.ts:12 | `@IsOptional()` skips the other checks exactly for null and undefined |
| Validators.IsEmail | src/dtos/user.signup.dto.ts:13 | `@IsEmail()` accepts only strings the address check accepts |
| Validators.MinLength | src/dtos/user.signup.dto.ts:18 | `@MinLength(n)` accepts strings of at least n characters |
| Validators.MaxLength | src/dtos/create.blog.dto.ts:6 | `@MaxLength(n)` accepts strings of at most n characters |
| Validators.Length | src/dtos/update.user.dto.ts:13 | `@Length(min, max)` accepts strings whose length lies between the bounds |
| Validators.ValidatorLength | src/dtos/user.signup.dto.ts:18 | the measured length is the code-point count minus the number of variation selectors U+FE0E and U+FE0F |
| Validators.ValidatorLengthAppend | src/dtos/user.signup.dto.ts:18 | lengths add up over concatenation |
| Validators.MinLengthExtends | src/dtos/user.signup.dto.ts:18 | a value meeting a minimum length still meets it with text appended |
| Validators.MaxLengthPrefix | src/dtos/create.blog.dto.ts:6 | every prefix of a value within a maximum length is within it too |
| SignUpDtoRules.RequiredStringErrors | src/dtos/user.signup.dto.ts:4-10 | name and userName are accepted exactly when they are non-empty strings |
| SignUpDtoRules.EmailErrors | src/dtos/user.signup.dto.ts:12-14 | the email is accepted exactly when it is a non-empty string that passes the email check |
| SignUpDtoRules.PasswordErrors | src/dtos/user.signup.dto.ts:16-19 | the password is accepted exactly when it is a string of length at least 8, and the length message appears exactly when the minimum is not met |
| SignUpDtoRules.Errors | src/dtos/user.signup.dto.ts:3-20 | accepted exactly when name and userName are non-empty strings, the email is non-empty and passes the email check, and the password is a string of length at least 8 |
| SignUpDtoRules.PasswordHasNoUpperBound | src/dtos/user.signup.dto.ts:16-19 | an accepted password stays accepted however long it is made |
| SignInDtoRules.Errors | src/auth-dto/user.signin.dto.ts:3-11 | accepted exactly when identifier and password are non-empty strings; a password of one character passes |
| CreateBlogDtoRules.TitleErrors | src/dtos/create.blog.dto.ts:4-7 | the title is accepted exactly when it is a non-empty string of length at most 150, and the length message appears exactly when it is longer |
| CreateBlogDtoRules.ContentErrors | src/dtos/create.blog.dto.ts:9-11 | the content is accepted exactly when it is a non-empty string, with no length cap |
| CreateBlogDtoRules.Errors | src/dtos/create.blog.dto.ts:3-12 | accepted exactly when the title is a non-empty string of length at most 150 and the content a non-empty string |
| CreateBlogDtoRules.BlankTitlePassesChecksNotSchema | src/dtos/create.blog.dto.ts:4-7 | every non-empty whitespace-only title within 150 characters, with any non-empty content, passes the DTO checks yet fails the schema's trimmed `required` |
| UpdateProfileDtoRules.MatchesComEmail | src/dtos/update.user.dto.ts:23 | the computed match implies the pattern `^[\w.%+-]+@[A-Za-z0-9.-]+\.com$` |
| UpdateProfileDtoRules.ComEmailPatternMatches | src/dtos/update.user.dto.ts:23 | every string of the pattern is matched, so the computed match decides the pattern exactly |
| UpdateProfileDtoRules.ComEmailHasOneAt | src/dtos/update.user.dto.ts:23 | a matched address holds exactly one '@': there is one, and none after the first |
| UpdateProfileDtoRules.ComAddressMatches | src/dtos/update.user.dto.ts:23 | 'a@b.com' matches |
| UpdateProfileDtoRules.NameErrors | src/dtos/update.user.dto.ts:11-14 | a name is accepted exactly when it is missing or a string of length 2 to 50 |
| UpdateProfileDtoRules.UserNameErrors | src/dtos/update.user.dto.ts:16-19 | a userName is accepted exactly when it is missing or a string of length 3 to 20 |
| UpdateProfileDtoRules.EmailErrors | src/dtos/update.user.dto.ts:21-26 | an email is accepted exactly when it is missing, or a string that passes the email check and the `.com` pattern |
| UpdateProfileDtoRules.PasswordErrors | src/dtos/update.user.dto.ts:28-31 | a password is accepted exactly when it is missing or a string of length at least 8 |
| UpdateProfileDtoRules.Errors | src/dtos/update.user.dto.ts:10-32 | the body is accepted exactly when every field is; a body with every field missing is accepted |
| ProfileDtoRules.MatchesProfileEmail | src/user-blog/profile-dto/update.user.dto.ts:23 | decides exactly the pattern `^[a-zA-Z0-9._%+-]+\.com$` |
| ProfileDtoRules.ProfileEmailSplit | src/user-blog/profile-dto/update.user.dto.ts:23 | a string of the pattern is a non-empty run of the class followed by '.com' |
| ProfileDtoRules.EmailErrors | src/user-blog/profile-dto/update.user.dto.ts:21-26 | an email is accepted exactly when it is missing, or a string that passes the email check and this pattern |
| ProfileDtoRules.Errors | src/user-blog/profile-dto/update.user.dto.ts:10-32 | the body is accepted exactly when every field is, with the name, userName and password rules of src/dtos/update.user.dto.ts; a body with every field missing is accepted |
| ProfileDtoRules.ProfileEmailHasNoAt | src/user-blog/profile-dto/update.user.dto.ts:23 | no string this pattern accepts contains '@' |
| ProfileDtoRules.VariantsDisagree | src/user-blog/profile-dto/update.user.dto.ts:23 | 'a@b.com' matches the pattern of src/dtos/update.user.dto.ts but not this one |
| ProfileDtoRules.SuppliedEmailAlwaysRefused | src/user-blog/profile-dto/update.user.dto.ts:21-26 | when the email check accepts only strings holding '@', every body that supplies an email is refused |

## Left out

- src/schemas/comments.schema.ts and src/user-blog/user-blog.schema.ts are not part of this model. The first is the schema that src/services/comments.service.ts:8 imports. The second is the one that src/user-auth/user-auth.service.ts:7, src/user-auth/user-auth.module.ts:8 and src/user-blog/user-blog.module.ts:5 use. The model assumes they declare the same fields, defaults, `trim`, `required` rules and unique indexes as src/comments/comments.schema.ts and src/schemas/user-blog.schema.ts. CommentService and UserAuthTen use those two schemas. UserAuthTen's lockout relies on `failedLoginAttempts` and `lockUntil` being declared, since Mongoose's strict mode drops undeclared fields on save. CommentService's "only blank content fails" relies on the trimmed `required` content.
- bcrypt salting and the cost factor: `Hash` is a deterministic opaque function and `Compare` holds exactly for the hash of the same password.
- JWT signing, signature and expiry checks, and Bearer-header extraction are done by passport and `@nestjs/jwt`; only the payload is modelled.
- MongoDB queries, `populate`, ObjectId generation and `timestamps` are replaced by the tables, a counter and an integer `createdAt`. The natural order of the user collection is taken to be insertion order.
- A malformed id string, which makes Mongoose throw a CastError, is not modelled: ids are already ObjectIds.
- Store failures outside a try/catch (blog update, remove, like and listing; comments; profile) are not modelled: those operations assume the store answers.
- Redis: the sixty-second expiry, Redis failures and the `JSON.stringify`/`JSON.parse` round trip, which turns dates into strings on a cached read.
- Concurrency: each service call is atomic. The race between the read and the `$pull`/`$addToSet` in `toggleLike` is therefore not modelled.
- Logging, including the Cloudinary provider and its configuration. The upload is a parameter that either returns `{public_id, secure_url}` or fails.
- Controllers, modules, `src/main.ts` and the spec files. The controllers matter only for what they pass to the services, which the finding on comment deletion uses.
- class-validator's `IsEmail` (validator.js's address check) is a parameter of the rule functions.
- Bodies are taken as the services' typed inputs. A non-string value, or a field no DTO declares, is outside the service model because nothing whitelists or transforms the body. An update body could set `author` or `isDeleted` this way.
- The update DTO of blogs (`blog-dto/update.blog.dto.ts`), the blog-module create DTO and `create-comment.dto.ts` are not part of this model. The blog patch has the title and content fields only.
- The `|| 0` fallback for a missing `failedLoginAttempts`: the count is a natural number that is always present, as the schema default makes it.
- UserBlogService.UpdateProfile: only the `required` validator of `runValidators` is modelled. Uniqueness is reported as a duplicate-key failure, without MongoDB's exact message.

## Findings

| source | as written | input that shows it | evidently intended | confidence | as-written member | corrected member |
|---|---|---|---|---|---|---|
| src/services/comments.service.ts:58 | `comment.author.toString() !== userId`, where the controller passes `req.user._id`, an ObjectId (src/controllers/comments.controller.ts:57) | the comment's author deleting their own comment: a string is never strictly equal to an ObjectId, so the author gets Forbidden | compare string forms on both sides, as `update` does at line 45; latent in the app as wired, because no module mounts src/controllers/comments.controller.ts (src/comments/comments.module.ts:3-4 mounts the controller beside it with its own service) | high, not executed | CommentService.RemoveAsWrittenRefusesAuthor | CommentService.Remove |
| src/user-blog/profile-dto/update.user.dto.ts:23 | `/^[a-zA-Z0-9._%+-]+\.com$/` has no '@' | 'a@b.com' fails the pattern, and so does every address that `@IsEmail` accepts | the pattern of src/dtos/update.user.dto.ts:23, `^[\w.%+-]+@[A-Za-z0-9.-]+\.com$`; latent in the app as wired, because neither src/main.ts nor src/app.module.ts installs a `ValidationPipe`, so the refusal shows only once one is installed | high, not executed | ProfileDtoRules.SuppliedEmailAlwaysRefused | UpdateProfileDtoRules.EmailErrors |
