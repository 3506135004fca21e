# dbctl in Dafny

dbctl hands every test its own database. This project models the parts of it where that promise is
hard to keep, and proves the promise for every input and every interleaving:

- the **postgres template cache** (`TemplateCache`, `TemplateCacheSafety`, `TemplateCacheRuns`,
  `PostgresServer`): requests clone a template when one exists for their migrations, or create an empty
  database, migrate it file by file, and save it as a template;
- the **redis index allocator** (`RedisAllocator`, `RedisSafety`, `RedisLeaks`, `RedisRemoval`,
  `RedisServer`): two atomic scripts that
  claim and release numbered databases, with claim keys kept in index 0;
- the **way of a migrations directory** from a client into the cache (`Encoding`, `Paths`, `Migrations`,
  `Upload`, `PostgresRequests`): walk, escape, unescape, clean, write, walk, sort, filter, hash;
- the **fixture tokenizer** (`Tokenizer`): a quote automaton inside a line splitter;
- **connection details as text** (`Uri`, `Connections`, `Identifiers`, `Discovery`, `Chain`): uris, quoted
  identifiers and container labels that have to lead back to the same database;
- **version text and order** (`Versions`), and the shared `Decimal`, `Splitting`, `Ordering`, `Prelude`.

`dafny verify dfyconfig.toml` checks everything.

## How the protocols are modelled

Both protocols are state machines over the events of all requests. One event is one statement or one
script, atomic on the server. A state is reached by any finite sequence of events, so requests interleave
without bound. Every statement may be refused (`Refused`), or take effect and be reported as failed
(`LostReply`). `Apply` is total: an event that is not possible in a state leaves the state unchanged.
The classes `PostgresServer.Server` and `RedisServer.Server` are the code itself, updating a server in
place. Each statement or script they send is recorded as one event of the protocol. What becomes of each is an
input (`answers`), so that the contracts can say exactly when an operation succeeds. Between two of them any
events of others may happen (`Interleave`); `alone` switches that off, and then the contracts also say that
nothing else happens.

What a database holds is abstract. For postgres, `exec` is a partial function from content and file text
to content (an error rolls back). For redis, `exec` gives the keyspace after one action and whether it
went through (a failing script may leave changes behind).

Assumptions, all visible in the contracts:

- **The key.** The template name is a truncated digest over names and contents written with nothing in
  between. Nothing is assumed about the digest as a whole. `Coherent(env, lists)` says that the given lists
  have the same effect when they share a template name, and `Confined(env, lists, events)` that requests
  outside the lists use other template names. With no lists at all both hold of every run, which is what
  `HandedOutExists` and `StartServesIff` rest on. `CacheInvisibleIff` proves that coherence is exactly what
  the cache needs, `DistinctStreamsAreCoherent` that it follows when the digest does not collide on the
  streams and the streams tell the lists apart, and `StreamIsAmbiguous` shows two directories for which
  they do not.
- **Dropping.** A postgres database is dropped only when nobody is still building it: its name is not known
  before its uri is released. Templates, finished and failed databases may be dropped at any time.
- **Clients** write only to databases they were handed, redis fixtures only to their own index.
- **Redis removal** happens at most once, by the holder. `StrayRemoveHarmlessIff` says exactly when another
  remove does no harm, `StaleRemoveShares` what happens otherwise. Both take redis to have fewer than 2^63
  databases.
- A migration file does not change between hashing and applying it.

Where the code departs from what one would expect, the model follows the code, and a lemma says exactly
when: a create that fails keeps a claimed redis index for good (`LeaksIff`, `OrphanedForever`); Start loads
fixtures only when it has migrations (`StartServesIff`); a redis password without a user is not in the uri,
an empty postgres or mongodb user comes back as the default user, host rewriting also hits credentials that
contain the docker host name, and mongodb credentials are query-escaped but read as userinfo, so that a
space comes back as a plus sign (the `RoundTripIff` lemmas); a file whose name begins with two dots makes a
whole upload fail (`UploadRecreatesTree`).

Text is a sequence of characters. Where the source works on bytes (paths, uris, escaping), a character is
a byte; fixture text is a sequence of runes.

## Model

| member | source | states |
|---|---|---|
| TemplateCacheSafety.CacheAgreement | internal/database/postgres/pg.go:93-174 | in every run in which nobody outside a coherent set of lists uses their template names, every template of the set is the complete fold of its migrations over an empty database (the default template: of Start's migrations over the initial one), and every database handed out for it is schema then fixtures from scratch, hit or miss |
| TemplateCacheSafety.HandedOutExists | internal/database/postgres/pg.go:114-122 | whatever the keys do, a released uri names a database that exists, is no template and is nobody else's |
| TemplateCacheSafety.PartialRunsHoldAPrefix | internal/database/postgres/pg.go:158-173 | a request that failed or is under way holds exactly the files applied so far in a database that is nobody else's and no template; before its snapshot this needs nothing of the keys |
| TemplateCacheSafety.StepKeepsTemplates | internal/database/postgres/pg.go:167-171 | no step stores a template that is not a complete migration run: no partial run, no fixtures, no client writes |
| TemplateCacheSafety.StepFrame | internal/database/postgres/pg.go:497-536 | a step writes its own database or adds a free template name and changes nothing else |
| TemplateCacheSafety.StepKeepsRequest | internal/database/postgres/pg.go:148-173 | a step keeps a request's record true: phase, ownership, applied prefix, handed content |
| TemplateCacheSafety.StepKeeps | internal/database/postgres/pg.go:128-174 | any statement of any request, failing or not, keeps the invariant of all requests and templates |
| TemplateCacheSafety.WriteKeeps | internal/database/postgres/pg.go:114-122 | client writes after the uri is released reach neither templates nor other requests |
| TemplateCacheSafety.DropKeeps | internal/database/postgres/pg.go:240-242 | dropping a database nobody is building, template or not, keeps the invariant |
| TemplateCacheSafety.RunKeeps | internal/database/postgres/pg.go:75-174 | the invariant holds after every sequence of events |
| TemplateCacheSafety.StartServesIff | internal/database/postgres/pg.go:262-276 | in every run, what Start leaves in the maintenance database is migrations then fixtures if and only if there were migrations, or fixtures that change nothing |
| TemplateCacheSafety.FixturesWithoutMigrations | internal/database/postgres/pg.go:267-276 | a start with one fixture file and no migrations never loads it |
| TemplateCacheRuns.RunKeepsTemplate | internal/database/postgres/pg.go:167-171 | whatever the key does, only a drop removes or changes a template |
| TemplateCacheRuns.HitsNeverMigrate | internal/database/postgres/pg.go:147-160 | from the moment a template exists until it is dropped, no request that tries it later creates an empty database or runs a migration |
| TemplateCacheRuns.SameJobSameDatabase | internal/database/postgres/pg.go:167-173 | what a job is handed is the same in any two runs: hits, misses, lost races and other requests' failures do not show |
| TemplateCacheRuns.CollisionServesTheOther | internal/database/postgres/pg.go:147-151 | for any two lists with one template name there is a run that hands the first list's schema to a request for the second |
| TemplateCacheRuns.CacheInvisibleIff | internal/database/postgres/config.go:236-262 | every run over a set of lists hands out what was asked for if and only if lists that share a template name have the same effect and Start skips no fixtures that matter |
| TemplateCacheRuns.TwoFilesAsOne | internal/database/postgres/config.go:257-258 | any two files have the digest input of one file |
| TemplateCacheRuns.StreamIsAmbiguous | internal/database/postgres/config.go:257-258 | two different directories of valid SQL with one template name under every digest |
| TemplateCacheRuns.AmbiguityServesTheOther | internal/database/postgres/pg.go:147-151 | on every server where those two directories differ in effect, some run hands the schema of one to a request for the other |
| TemplateCacheRuns.StreamDeterminesFiles | internal/database/postgres/config.go:257-258 | lists whose names and contents have the same lengths are told apart by the stream |
| TemplateCacheRuns.DistinctStreamsAreCoherent | internal/database/postgres/config.go:236-262 | no digest collision and distinct streams among the run's lists make the keys coherent |
| PostgresServer.CloneCopiesOrNothing | internal/database/postgres/pg.go:185-207 | creating from a template changes no existing database, adds at most the new name with the template's content, and reports a missing template exactly when there is none |
| PostgresServer.FileAllOrNothing | internal/database/postgres/pg.go:524-536 | a file takes effect whole or not at all, in its own database only; success is reported only when it did, failure after an effect only when the answer was lost |
| PostgresServer.Server.Interleave | internal/database/postgres/pg.go:75-123 | between two statements of a request, any events of others leave its record as it was |
| PostgresServer.Server.RunMigrations | internal/database/postgres/pg.go:457-464 | applies the files in order as protocol steps of this request, others' events in between, and stops at the first failure; answered and alone, it succeeds if and only if all of them run |
| PostgresServer.Server.ApplyFixtures | internal/database/postgres/pg.go:467-488 | the same for fixtures, in the request's own database and no other |
| PostgresServer.Server.TryTemplate | internal/database/postgres/pg.go:147-154 | moves to fixtures on a hit, to create on a missing template, and fails otherwise |
| PostgresServer.Server.SaveTemplate | internal/database/postgres/pg.go:167-171 | the template is there unless the statement was refused, and the request goes on to fixtures whatever the outcome |
| PostgresServer.Server.CreateFromMigrations | internal/database/postgres/pg.go:128-174 | on success the request stands before its fixtures, on failure it has failed; answered and alone, it succeeds if and only if the name is free and there is a template or the migrations run, and a miss leaves the template behind |
| PostgresServer.Server.CreateDB | internal/database/postgres/pg.go:75-123 | with others' events between any two statements: the returned name is in the server and nobody else's whatever the keys do, and holds what a run from scratch gives, given coherent keys; answered and alone, it succeeds if and only if the name is free, the schema can be had (template, else migrations; default template; empty) and the fixtures run on it, and no other database changes but a new template |
| PostgresRequests.CreateFromUpload | internal/apiserver/server.go:191-203 | from uploaded parts to a database: a released uri means that every part of both directories was taken and the database holds the migrations of one uploaded tree, then the fixtures of the other; a failed upload never reaches the server; answered and alone, success is exactly that of CreateDB |
| PostgresServer.Server.RemoveDB | internal/database/postgres/pg.go:210-245 | succeeds if and only if the uri names a database and the drop is answered; drops exactly that database unless refused, and else changes nothing |
| PostgresServer.UriRemovesItsDatabase | internal/database/postgres/pg.go:210-221 | the uri handed out for a database, for all credentials, ports and host rewriting, removes that database |
| PostgresServer.Server.Start | internal/database/postgres/pg.go:262-276 | on success the maintenance database holds migrations then fixtures if and only if there were migrations, or fixtures that change nothing; the default template, if there, holds the migrations alone; answered and alone, it succeeds if and only if the migrations, if any, and then the fixtures run, and the default template is there once the migrations ran |
| RedisAllocator.LeastFree | internal/database/redis/redis.go:131-144 | the least unclaimed index in range, or none exactly when all are claimed |
| RedisAllocator.DatabaseCount | internal/database/redis/redis.go:160-173 | a readable reply of at least 2 is used as it is, everything else becomes 16; the count is at least 2 and fits 64 bits |
| RedisAllocator.ReportIsBelieved | internal/database/redis/redis.go:160-173 | the count of a server that reports at least two databases reads back |
| RedisAllocator.ClaimKeyInjective | internal/database/redis/redis.go:135-136 | different indexes have different claim keys |
| RedisSafety.Exclusion | internal/database/redis/redis.go:125-157 | in every run no two unreleased claims share an index and each lies in 1..count-1 for the count its caller saw; an index being filled or handed out exists on the server |
| RedisSafety.Conservation | internal/database/redis/redis.go:86-100 | in every run index 0 holds what it held at first plus exactly the claim keys of in-flight, live and orphaned indexes; an index is free if and only if nobody holds it and its key was not there at first |
| RedisSafety.Freshness | internal/database/redis/redis.go:81-100 | a database handed out held exactly what the fixtures make of an empty keyspace, whatever was there before |
| RedisSafety.Isolation | internal/database/redis/redis.go:71-103 | no event changes any index but 0 and the one its own request holds before or after, be it free, claimed before the run or held by another; nor another request's record |
| RedisSafety.AcquireGivesLeast | internal/database/redis/redis.go:131-154 | an answered acquire claims the least free index; the caller gets it, flushed, if and only if the server has that database, is turned away if and only if every index below the count is claimed, and else the claim is lost |
| RedisSafety.HolderReleases | internal/database/redis/redis.go:188-201 | a holder's remove always goes through on a real index and leaves it free and empty |
| RedisSafety.RunKeeps | internal/database/redis/redis.go:71-216 | the allocator's invariant holds after every sequence of events |
| RedisLeaks.LeaksIff | internal/database/redis/redis.go:91-99 | a create that claimed an index, every statement answered, keeps it without handing it out if and only if the index is beyond what the server has or the fixtures do not go through on an empty database |
| RedisLeaks.OrphanedForever | internal/database/redis/redis.go:91-99 | in every continuation an orphaned index is never free again and nobody is given it |
| RedisLeaks.ExhaustedForever | internal/database/redis/redis.go:151-154 | once every index below a count is orphaned, every later create that sees that count is turned away |
| RedisLeaks.BrokenFixtureLeaks | internal/database/redis/fixtures.go:114-116 | a create with one fixture line that ends inside a quote keeps index 1 for good |
| RedisRemoval.StrayRemoveHarmlessIff | internal/database/redis/redis.go:176-216 | in every run, removing an index one does not hold loses nobody's content and never makes a later create share a taken index if and only if the index is no database of the server or is free |
| RedisRemoval.StaleRemoveShares | internal/database/redis/redis.go:176-216 | in every run, after a second remove of an index that somebody holds there is a continuation in which two requests hold it |
| RedisRemoval.TakeFreed | internal/database/redis/redis.go:125-157 | from any state, enough new callers get to any free index of the server |
| RedisServer.Server.Interleave | internal/database/redis/redis.go:71-103 | between two calls of a request, any events of others leave its record and the content of its index as they were |
| RedisServer.Server.AcquireScript | internal/database/redis/redis.go:131-144 | the script's loop is one atomic claim of the least free index, with the claim left behind when the index cannot be selected |
| RedisServer.Server.RemoveScript | internal/database/redis/redis.go:195-201 | flushes the index and drops its claim key, or changes nothing |
| RedisServer.Server.AcquireDBIndex | internal/database/redis/redis.go:125-157 | an index if and only if it is answered and the least free one is a database; nothing changes when refused or all are claimed; otherwise exactly the least free index is orphaned |
| RedisServer.Server.LoadFixtures | internal/database/redis/fixtures.go:23-49 | all actions applied in order, others' events in between, or the index orphaned; without faults it fails if and only if the actions do not go through on an empty database |
| RedisServer.Server.CreateDB | internal/database/redis/redis.go:71-103 | with others' events between any two calls: the returned index is nobody else's, in range, and holds what the fixture files make of an empty database; when answered it succeeds if and only if the least index free at its acquire is a database and the fixtures go through; alone, no other index changes and index 0 gains at most the claim key |
| RedisServer.Server.RemoveByUri | internal/database/redis/redis.go:176-216 | succeeds if and only if the uri names index 0 or a database of the server; index 0 is left alone, any other ends up free and empty with exactly its claim key gone and no other index changed; an error changes nothing |
| RedisServer.UriNamesItsIndex | internal/database/redis/redis.go:176-186 | the uri handed out for an index, for all credentials, ports and host rewriting, names that index to the remover |
| RedisServer.Server.RemoveDB | internal/database/redis/redis.go:176-216 | unless refused, the holder's index ends up free and empty and exactly its claim key is gone; refused, nothing changes; it succeeds if and only if it is answered; no other index changes |
| Tokenizer.SplitCommand | internal/database/redis/fixtures.go:83-123 | the loop computes Split, whose meaning the next lemmas give |
| Tokenizer.SplitFailsIff | internal/database/redis/fixtures.go:114-116 | an error if and only if the line ends inside a quote |
| Tokenizer.SplitAtSpace | internal/database/redis/fixtures.go:103-108 | white space outside quotes splits a line into independently split halves |
| Tokenizer.SpacesAre | internal/database/redis/fixtures.go:102-102 | which bytes are white space |
| Tokenizer.SplitWord | internal/database/redis/fixtures.go:83-123 | a word without quotes and white space is one argument |
| Tokenizer.FeedPlain | internal/database/redis/fixtures.go:108-110 | unquoted text goes to the argument being read |
| Tokenizer.FeedQuoted | internal/database/redis/fixtures.go:93-101 | everything between two quotes of one kind goes to the argument being read, the other kind and white space included |
| Tokenizer.SplitIgnoresTrim | internal/database/redis/fixtures.go:54-56 | trimming changes neither the arguments nor whether there is an error |
| Tokenizer.NoArgumentsIff | internal/database/redis/fixtures.go:64-66 | no arguments if and only if the line is blank |
| Tokenizer.FileActionsConcat | internal/database/redis/fixtures.go:53-79 | one file below another does one's work, then the other's |
| Tokenizer.CommentsAreSkipped | internal/database/redis/fixtures.go:55-58 | lines that begin with # after white space, and blank lines, do nothing wherever they stand |
| Tokenizer.OtherLines | internal/database/redis/fixtures.go:60-66 | any other line is the command it spells, or an error when it does not split |
| Tokenizer.OneFixture | internal/database/redis/fixtures.go:36-45 | a lua file is one script, any other file its lines |
| Tokenizer.FixturesInOrder | internal/database/redis/fixtures.go:30-46 | files are loaded one after the other in the order given |
| Tokenizer.ApplyCommands | internal/database/redis/fixtures.go:53-79 | runs the file's commands in order and stops at the first malformed line or failing command, with everything before it applied |
| Tokenizer.ProgressIsRun | internal/database/redis/fixtures.go:53-79 | all commands going through is the same as the protocol's fold of actions |
| Tokenizer.SplitPrintedCommand | internal/database/redis/fixtures.go:83-123 | every non-empty argument list has a line that splits back into it |
| Tokenizer.PrintedFileActions | internal/database/redis/fixtures.go:53-123 | commands printed one per line are issued exactly and in order: empty arguments, spaces, both quotes, leading # |
| Encoding.UnescapeEscape | internal/apiserver/server.go:284-287 | decoding undoes path, userinfo, query and Python encoding, except that a query-encoded space comes back as a plus |
| Encoding.EscapeAlphabet | clients/python/src/dbctl/dbctl.py:159-167 | encoded text has only safe characters and percent signs |
| Paths.UploadPathIsSafe | internal/apiserver/server.go:283-300 | every accepted name is clean, relative and has no parent reference, whatever the client sent |
| Paths.UndecodedIsTaken | internal/apiserver/server.go:284-287 | a name that does not decode is taken as it is |
| Paths.CleanStepsBack | internal/apiserver/server.go:289-289 | a step down and up again is nothing |
| Paths.CleanSkips | internal/apiserver/server.go:289-289 | a dot and a second slash are nothing |
| Paths.RootHasNoParent | internal/apiserver/server.go:289-289 | the parent of the root is the root |
| Paths.ParentStays | internal/apiserver/server.go:289-289 | a relative path keeps the parent it starts with |
| Paths.BaseBelow | internal/apiserver/server.go:279-282 | multipart parsing leaves the last name of a path |
| Paths.UploadStaysBelow | internal/apiserver/server.go:336-345 | the target is the directory, a slash and the accepted name |
| Paths.EncodedPathComesBack | clients/dbctlgo/client.go:287-287 | both clients' encodings of a clean path have no separator and survive base-name reduction, and are accepted, as that path, if and only if it does not begin with two dots |
| Migrations.GetFiles | internal/database/postgres/config.go:183-230 | the sql files below a directory, sorted; a single file as it is; an error when there is nothing; nothing for no path |
| Migrations.MigrationFiles | internal/database/postgres/config.go:160-169 | the files that are not down migrations, in order |
| Migrations.DownFileIff | internal/database/postgres/config.go:163-163 | a down migration is a file whose name ends in down.sql, in capitals or not |
| Migrations.OtherNames | internal/database/postgres/config.go:163-163 | names that end otherwise are no down migrations |
| Migrations.SqlFileIff | internal/database/postgres/config.go:216-216 | a file with an extension is an sql file if and only if that spells sql, in capitals or not, or with a long s, whatever its directory and stem |
| Migrations.NoExtension | internal/database/postgres/config.go:216-216 | a file without an extension is no sql file |
| Migrations.UpAndDown | internal/database/postgres/config.go:160-169 | of an up and a down migration up is applied and down is not |
| Migrations.TemplateName | internal/database/postgres/config.go:236-262 | fails exactly on an unreadable file, and else is the template name of the relative names and contents |
| Migrations.SingleFile | internal/database/postgres/config.go:252-257 | a single migration file given by a relative path is hashed under its base name, so its directory does not show; given by an absolute one, under a dot |
| Migrations.SortPrefix | internal/database/postgres/config.go:227-229 | sorting paths below any directory is sorting their relative names |
| Ordering.LexLeIff | internal/database/postgres/config.go:227-229 | the order of names: a beginning, or the smaller character where they first differ |
| Ordering.NumbersInOrder | internal/database/postgres/config.go:227-229 | numbers with the same count of digits are in the order of their values |
| Migrations.FilterOfSort | internal/database/postgres/config.go:160-169 | dropping files before or after sorting is the same |
| Migrations.AppliedPaths | internal/database/postgres/config.go:160-229 | the applied paths are the tree's migrations sorted by relative name, below the directory |
| Migrations.MigrationsAre | internal/database/postgres/config.go:160-229 | exactly the non-down sql files of the tree, each once, with their contents, in sorted order |
| Migrations.FixturesAre | internal/database/postgres/pg.go:476-488 | fixtures are exactly the sql files of the tree, down files included, each once, with their contents, in sorted order |
| Migrations.ReadsTheFixtures | internal/database/postgres/pg.go:476-488 | what is read from a directory are the fixtures of the tree unpacked there |
| Migrations.RelocationInvariance | internal/database/postgres/config.go:231-262 | any two directories and walk orders give the same files in the same order and the same template name |
| Upload.FilesToSend | clients/dbctlgo/client.go:351-378 | the matching files, sorted by relative name |
| Upload.WrittenIsReceived | internal/apiserver/server.go:336-352 | writing parts below a new directory goes through exactly when receiving them does, puts exactly that tree there, and changes no other file |
| Upload.Disk.ReadMultipartFiles | internal/apiserver/server.go:308-352 | the disk holds the parts up to the first that is refused or in the way, below the directory, and nothing else changed; success if and only if there is none |
| Upload.FileAndDirectory | internal/apiserver/server.go:336-345 | a file and a directory of one name make an upload fail, whichever comes first |
| Upload.LaterPartStays | internal/apiserver/server.go:341-352 | of two parts for one file the later one stays |
| Upload.UploadRecreatesTree | clients/dbctlgo/client.go:283-305 | from either client and in any order of parts, the server receives exactly the matching files of the tree if none of their names begins with two dots, and fails otherwise |
| Upload.UploadPipeline | internal/apiserver/server.go:308-352 | end to end: parts sent in any order are written below any new directory, and what is then read from it, walked in any order, is exactly the matching non-down sql files, each once, sorted by the client's relative path, with their contents |
| Upload.SameTreeIsReused | internal/database/postgres/config.go:231-235 | a second upload of a tree into another directory never migrates while the first one's template exists |
| Identifiers.NameSpaces | internal/database/postgres/config.go:261-262 | generated names, hashed templates and the default template never meet, names identify their origin, and a template name fits 63 bytes |
| Identifiers.GeneratedNameIsNoTemplate | internal/database/postgres/pg.go:86-86 | a generated database name is never a template's |
| Identifiers.QuotedNameReadsBack | internal/database/postgres/pg.go:249-251 | lexing a quoted name consumes exactly it and gives the name back |
| Identifiers.CloneStatementReadsBack | internal/database/postgres/pg.go:198-199 | the create statement reads back as exactly its name and template |
| Identifiers.CloneStatementIs | internal/database/postgres/pg.go:198-199 | the words of the statement |
| Uri.TextReadsBack | internal/database/postgres/config.go:84-88 | parsing a composed uri recovers credentials, host with port, and path |
| Uri.RewriteText | internal/database/postgres/pg.go:178-183 | replacing the host in a uri changes the address and the credentials and nothing else |
| Encoding.ReplaceInEscaped | internal/database/redis/redis.go:220-225 | replacing plain text before or after encoding is the same |
| Connections.Config.WithURI | internal/database/postgres/config.go:78-108 | takes user, password and port from the uri and keeps what the uri does not have; fails exactly on an unparsable uri or port, in the latter case with the credentials already taken over |
| Connections.PortlessKeepsPort | internal/database/postgres/config.go:98-104 | a uri without a port leaves the configured port alone, one without credentials those too |
| Connections.PortTooLarge | internal/database/postgres/config.go:98-104 | a port that does not fit 32 bits is an error |
| Connections.PostgresReadsBack | internal/database/postgres/pg.go:442-450 | for all credentials, ports and names, the returned uri leads back to port and name, and to the credentials as rewriting left them |
| Connections.PostgresUriShows | internal/database/postgres/pg.go:442-450 | for all inputs the uri handed out has scheme postgres and query sslmode=disable; before rewriting it leads to localhost or the docker host, and the port |
| Connections.PostgresRoundTripIff | internal/database/postgres/config.go:78-108 | the same credentials come back if and only if there is a user and rewriting hits no credential |
| Connections.RedisReadsBack | internal/database/redis/redis.go:389-410 | the returned uri leads back to index and port; a password without a user is lost |
| Connections.RedisUriShows | internal/database/redis/redis.go:389-410 | scheme redis and no query; before rewriting the same host and port |
| Connections.RedisRoundTripIff | internal/database/redis/config.go:60-90 | the same credentials come back if and only if there is a user or no password, and rewriting hits no credential |
| Connections.MongoReadsBack | internal/database/mongodb/mongodb.go:321-333 | the returned uri leads back to port and name, with spaces in credentials read as plus signs |
| Connections.MongoUriShows | internal/database/mongodb/mongodb.go:321-333 | scheme mongodb and no query; before rewriting the same host and port |
| Connections.MongoRoundTripIff | internal/database/mongodb/config.go:73-103 | the same credentials come back if and only if there is a user, no credential has a space, and rewriting hits none |
| Discovery.FindInstances | internal/database/database.go:133-146 | a type is present if and only if exactly one container matches, with what its labels say; an error if and only if a port label is broken |
| Discovery.StartedIsFound | internal/database/database.go:84-128 | the only match is found with exactly the details it was started with |
| Discovery.FindInstanceIs | internal/database/database.go:84-128 | nothing, several or one, and then the port label decides; without one the port is left to the defaults |
| Discovery.UnmanagedIsSpared | internal/container/docker_rest.go:157-187 | a container dbctl does not manage is never listed, whatever its labels |
| Discovery.StartedMatchesIff | internal/database/database.go:43-49 | a started container matches exactly its own type, and no label or its own |
| Discovery.CreateRequest.ApplyInstance | internal/apiserver/server.go:232-266 | gaps are filled from the snapshot, else from discovery, else left |
| Discovery.CreateRequest.ApplyDefaults | internal/apiserver/server.go:408-425 | remaining gaps are filled with the type's defaults |
| Discovery.SentDetailsWin | internal/apiserver/server.go:248-266 | each detail sent is kept, and each gap is filled from the same detail |
| Discovery.CreateRequest.Resolve | internal/apiserver/server.go:248-266 | an empty request ends up with the snapshot's details, else with those the one matching instance was started with, exactly these if and only if they have no gap the defaults fill, else with the defaults |
| Chain.PostgresChainIff | internal/apiserver/server.go:408-441 | start, discover, create, remove: the uri handed to an empty request names the created database and configures the remover with exactly the details the only match was started with if and only if they have a user, a password and a port and rewriting hits no credential |
| Chain.RedisChainIff | internal/apiserver/server.go:443-467 | the same for redis, if and only if there is a user or no password, a port, and rewriting hits no credential |
| Chain.MongoChainIff | internal/apiserver/server.go:469-501 | the same for mongodb, if and only if there are a user, a password and a port, no credential has a space, and rewriting hits none |
| Chain.DefaultsAgree | internal/apiserver/server.go:408-501 | an instance nobody discovered is created on and removed from with the same defaults |
| Discovery.Docker.RemoveListed | cmd/stop.go:118-145 | exactly the first listed containers are gone, as many as counted; success if and only if that is all of them; no other container is touched |
| Decimal.ParseOfUtoa | internal/database/database.go:117-123 | a printed port reads back |
| Decimal.AtoiOfItoa | internal/database/redis/redis.go:183-186 | a printed 64-bit index reads back |
| Versions.ParsesIff | internal/selfupdate/version.go:37-73 | a text parses if and only if it matches the pattern with every segment below 2^64, and then to what its segments spell |
| Versions.ShortVersions | internal/selfupdate/version.go:55-72 | segments left out are zero |
| Versions.PrintedVersionParses | internal/selfupdate/version.go:20-22 | every 64-bit version reads back from its text |
| Versions.CompareIsTotalOrder | internal/selfupdate/version.go:24-35 | Compare is antisymmetric, transitive, zero only on equals, and the lexicographic order of the triple |

## Left out

- Docker, HTTP, multipart transport and the database drivers: each call used is one atomic step with its documented effect and possible failure.
- The digest itself: an arbitrary function into 32 hexadecimal digits.
- SQL and Redis command semantics, and MongoDB script application: content is abstract.
- Network failures inside `Tokenizer.ApplyCommands`: they are faults of the protocol's load step instead.
- Waiting loops, port probing, timeouts, signals, UI containers, logging and table printing.
- The extension filters of the redis and mongodb fixture directories.
- The choice between script and command file by extension: a flag of `Fixture`.
- The clients' regular expressions: any predicate on relative paths.
- Bracketed IPv6 hosts: reported as a parse error.
- Fixture text that is not valid UTF-8: text is a sequence of runes.
- Lua's number formatting for indexes from 1e14 on.
- The dispatch of command line arguments, and the snapshot's transport as JSON.
- Self-update download and extraction, and `Version.Greater`.
- Paths on systems other than Unix.
- Migrations.GetFiles: sorts by a sorting function instead of in place; the order of the walk is arbitrary.
- Upload.FilesToSend: sorts by a sorting function instead of in place.
- TemplateCacheSafety.DropKeeps: a drop of a database that is still being built is not an event of the protocol, because its name is known to nobody before its uri is released.
- PostgresServer.Server.RemoveDB: follows the protocol only when nobody is still building the database; what it does to the databases is stated for every uri.
- PostgresServer.Server.CreateFromMigrations: takes the migration files as they were read; PostgresRequests.CreateFromUpload reads them from the directory.
