# promodoro, modelled in Dafny

promodoro is a pomodoro web app. The React frontend has a three-phase
focus/break timer, the settings modal that edits its lengths, the sign-up and
login forms, a task list and a project slider. The Express backend greets
users by name and stores tasks and projects in MongoDB.

This project models that logic and proves properties of it:

- **Timers.** Both revisions of the Timer component are modelled as classes
  over their state fields (`currentState`, `timeLeft`, `isActive`,
  `focusSessions` and, for the home timer, the browser's key-value store).
  The pure parts live in `TimerPhases`: phase lengths, the routing from one
  phase to the next, the clock strings, and the session indicator.
- **Forms.** The settings modal's draft editing and submit normalisation,
  the sign-up and login validation, and the email pattern both forms use.
- **Lists.**
  - The task list's tag parsing, toggling and add form.
  - The demo list on the home page.
  - The project slider's paging and add form.
  - The colour lookup and the API URL builder.
- **Backend.**
  - The welcome endpoint is a pure function from the request body to a reply.
  - The task and project controllers are operations on an in-memory
    database, the `Store.Database` class. Each Mongoose query is written as
    a search, filter or update of the collection's sequence.
  - Object ids come from a counter.

JavaScript semantics are given explicitly in `Js`:

- `trim` and the regex class `\s` use the ECMAScript white-space and
  line-terminator set.
- `split` on one character, `padStart`, and number-to-string.
- `toUpperCase` on ASCII letters.
- `slice` with clamping.

Results that come from outside the code are parameters of the operations:
- the network and server replies;
- the token in localStorage;
- `Date.now()`;
- the result of `parseInt`.

The home timer is not a drift-free clock:

- It decrements `timeLeft` once a second.
- It saves only a start instant, and does so under two differently spelled
  keys, one of which is never read back.
- It has no time logging.

The one restore property the code does have is proved: saving a start
instant and restoring from it gives a countdown that does not depend on how
many ticks happened in between (`HomeTimer.RestoreAfterStart`).

## Model

| member | source | states |
|---|---|---|
| TimerPhases.Key | frontend/src/components/Home/Timer.jsx:5-9 | the three state values are distinct: each names exactly one phase |
| TimerPhases.StateDuration | frontend/src/components/Home/Timer.jsx:19-30 | focus lasts 25 min, a short break 5 min and a long break 15 min; any unknown state value gets the focus length |
| TimerPhases.Duration | frontend/src/components/Timer.jsx:20-31 | every phase has a positive length that is a whole number of minutes |
| TimerPhases.StateLabel | frontend/src/components/Home/Timer.jsx:144-155 | the three state values get "Focus", "Short Break" and "Long Break"; a value is labelled Focus exactly when getStateDuration gives it the focus length, so unknown values are treated alike by both |
| TimerPhases.NextPhase | frontend/src/components/Home/Timer.jsx:32-43 | focus is followed by a long break exactly when the completed session makes the count a multiple of sessionsUntilLongBreak, and by a short break otherwise; focus is never followed by focus; every break is followed by focus |
| TimerPhases.Advance | frontend/src/components/Home/Timer.jsx:53-57 | skipping moves to the next phase; the session count grows by one exactly when a focus phase is left |
| TimerPhases.RoutingOverRun | frontend/src/components/Home/Timer.jsx:32-43 | starting in focus with s sessions, 2k completions return to focus with s+k sessions, and the next break is long exactly when s+k+1 is a multiple of n |
| TimerPhases.TwoDigits | frontend/src/components/Home/Timer.jsx:123 | `toString().padStart(2,'0')` gives at least two digits that read back as the number, and exactly two below 100 |
| TimerPhases.Clock | frontend/src/components/Home/Timer.jsx:123 | a clock is the minutes field, ':' and the two-character seconds field, each recoverable from it |
| TimerPhases.FormatTime | frontend/src/components/Home/Timer.jsx:120-124 | the shown minutes are seconds/60 and the shown seconds are seconds%60, all digits, and together they give the countdown back |
| TimerPhases.Title | frontend/src/components/Home/Timer.jsx:93-111 | the title is the phase caption, " - ", then minutes without a leading zero, ':' and two-digit seconds, which read back as timeLeft/60 and timeLeft%60 |
| TimerPhases.TitleShowsDial | frontend/src/components/Home/Timer.jsx:93-111 | from ten minutes up the document title shows the same clock as the dial; below that it drops the leading zero of the minutes |
| TimerPhases.SessionsLeft | frontend/src/components/Home/Timer.jsx:257-268 | the "N left" count lies in [1, n]; the next long break comes after exactly that many more focus sessions and not sooner; filled dots plus N make n |
| HomeTimer.RestoredTimeLeft | frontend/src/components/Home/Timer.jsx:81-91 | the restored countdown is the duration minus whole elapsed seconds, never negative, and never above the duration when the saved instant is not in the future |
| HomeTimer.StartInstant | frontend/src/components/Home/Timer.jsx:115 | the saved start instant gives the current countdown back when restored at the same instant, and is not in the future while the countdown is within the duration |
| HomeTimer.RestoreAfterStart | frontend/src/components/Home/Timer.jsx:113-117 | restoring from the start instant that toggleTimer saves gives the countdown at the save minus whole seconds since then, with no dependence on ticks; restoring at once gives it exactly |
| HomeTimer.Timer.constructor | frontend/src/components/Home/Timer.jsx:11-15 | the timer starts in focus with 25:00 left, stopped, with no sessions |
| HomeTimer.Timer.Restore | frontend/src/components/Home/Timer.jsx:81-91 | the mount effect: with a saved instant, the countdown is recomputed for the phase current now; without one, now is saved; nothing else changes |
| HomeTimer.Timer.SwitchToState | frontend/src/components/Home/Timer.jsx:45-51 | sets the given phase at full length, stopped, keeps the session count, and writes the instant under the misspelled key |
| HomeTimer.Timer.SkipToNext | frontend/src/components/Home/Timer.jsx:53-65 | the phase and count advance as Advance says, the countdown restarts at full length, and the timer runs exactly when isAutomatic is set |
| HomeTimer.Timer.SkipClicked | frontend/src/components/Home/Timer.jsx:53-65 | the skip button passes its truthy click event as isAutomatic, so a manual skip keeps the timer running |
| HomeTimer.Timer.Tick | frontend/src/components/Home/Timer.jsx:67-79 | running with time left, the countdown drops by exactly one and nothing else changes; running at 0, the phase completes and the next one runs at full length; stopped, nothing changes |
| HomeTimer.Timer.ToggleTimer | frontend/src/components/Home/Timer.jsx:113-118 | flips isActive only; when starting, it saves the instant the phase would have had to start at |
| HomeTimer.SkipDoesNotReachRestore | frontend/src/components/Home/Timer.jsx:45-91 | the key switch and skip write differs from the key the mount effect reads, so they never affect a restore |
| HomeTimer.RunPhaseToCompletion | frontend/src/components/Home/Timer.jsx:53-79 | from any phase, session count and countdown k, running, exactly k ticks bring the countdown to 0 in the same phase and the next tick moves on by Advance into the following phase, running at its full length, with the instant written under the switch key |
| HomeTimer.Reload | frontend/src/components/Home/Timer.jsx:11-91 | a reload mounts in focus, stopped; with a saved start instant the countdown is the focus length minus the whole seconds since it (at most the focus length when the instant is not in the future), and without one it is the full focus length and now is saved |
| HomeTimer.SwitchTwice | frontend/src/components/Home/Timer.jsx:45-51 | switching to a phase twice leaves the same state as switching once |
| LegacyTimer.Timer.constructor | frontend/src/components/Timer.jsx:12-16 | focus, 25:00, stopped, no sessions, four sessions until a long break |
| LegacyTimer.Timer.SwitchToState | frontend/src/components/Timer.jsx:48-53 | the given phase at full length, stopped, with the session count kept |
| LegacyTimer.Timer.SkipToNext | frontend/src/components/Timer.jsx:56-65 | the phase and count advance as Advance says, and the timer is always left stopped |
| LegacyTimer.Timer.Tick | frontend/src/components/Timer.jsx:66-79 | running with time left, the countdown drops by one; running at 0, the next phase is reached stopped; stopped, nothing changes |
| LegacyTimer.Timer.ToggleTimer | frontend/src/components/Timer.jsx:81-83 | flips isActive; phase, countdown and sessions are unchanged |
| LegacyTimer.RunPhaseToCompletion | frontend/src/components/Timer.jsx:66-79 | from any phase, session count and countdown k, running, exactly k ticks bring the countdown to 0 in the same phase and the next tick moves on by Advance into the following phase, stopped at its full length |
| SettingsModal.Set | frontend/src/components/Home/SettingsModal.jsx:96-100 | updating one field of the draft leaves the others as they were |
| SettingsModal.SubmittedSeconds | frontend/src/components/Home/SettingsModal.jsx:25-33 | a submitted length, in seconds, is a whole number of minutes between 1 and the field's maximum; an empty field gives the default, and an in-range value is kept |
| SettingsModal.Submitted | frontend/src/components/Home/SettingsModal.jsx:25-35 | focus lies in 1..120 min, a short break in 1..30 min and a long break in 1..60 min; the session count defaults to 4 and is otherwise sent unclamped |
| SettingsModal.Opened | frontend/src/components/Home/SettingsModal.jsx:49-57 | opening shows each length as whole minutes rounded down, and the session count as it is |
| SettingsModal.SubmitThenOpen | frontend/src/components/Home/SettingsModal.jsx:25-57 | submitting, reopening and submitting again sends the same preferences; an in-range draft comes back unchanged |
| SettingsModal.Changed | frontend/src/components/Home/SettingsModal.jsx:93-103 | emptying the input blanks the field; a number in 1..limit is stored; any other input changes nothing; other fields are untouched |
| SettingsModal.Blurred | frontend/src/components/Home/SettingsModal.jsx:104-108 | leaving the field empty or below 1 resets it to its default; otherwise nothing changes |
| SettingsModal.Shown | frontend/src/components/Home/SettingsModal.jsx:92 | a blank field is shown as the empty string and a number n as text that parseInt reads as n, and no number is shown as the empty string |
| SettingsModal.ChangeThenBlur | frontend/src/components/Home/SettingsModal.jsx:93-108 | after typing and leaving a field, with the blur reading what the draft holds, the field is a number of at least 1: the typed value when accepted, the default when emptied, otherwise an accepted value or the previous one; other fields are untouched |
| SettingsModal.Modal.constructor | frontend/src/components/Home/SettingsModal.jsx:10-15 | the draft starts as the opened form of the user's preferences |
| SettingsModal.Modal.OpenModal | frontend/src/components/Home/SettingsModal.jsx:49-57 | opening resets the draft from the preferences |
| SettingsModal.Modal.Change | frontend/src/components/Home/SettingsModal.jsx:93-103 | the draft becomes Changed of the old draft |
| SettingsModal.Modal.Blur | frontend/src/components/Home/SettingsModal.jsx:104-108 | the draft becomes Blurred of the old draft, applied to the text the controlled input shows for it |
| SettingsModal.Modal.Submit | frontend/src/components/Home/SettingsModal.jsx:19-47 | without a token nothing is sent; otherwise the normalised preferences are sent |
| EmailPattern.MatchesPattern | frontend/src/pages/SignUp.jsx:39 | the language of `/^[^\s@]+@[^\s@]+\.[^\s@]+$/`, written as the existence of the '@' and '.' positions; any match has at least five characters and holds an '@' and a '.' |
| EmailPattern.IsEmail | frontend/src/pages/SignUp.jsx:39-42 | the scan the forms run; an accepted address holds exactly one '@' (IsEmailMatches proves it accepts exactly the pattern's language) |
| EmailPattern.IndexOf | frontend/src/pages/SignUp.jsx:39 | the first position of a character, or -1 exactly when it is absent |
| EmailPattern.IsEmailMatches | frontend/src/pages/SignUp.jsx:39 | the executable check accepts exactly the strings `/^[^\s@]+@[^\s@]+\.[^\s@]+$/` matches |
| EmailPattern.IndexOfFirst | frontend/src/pages/SignUp.jsx:39 | a position holding the character with none before it is the one the search finds |
| EmailPattern.EmailError | frontend/src/pages/SignUp.jsx:39-44 | an empty email is "Email is required", one that does not match is "Please enter a valid email address", and there is no error exactly when it matches |
| SignUp.Set | frontend/src/pages/SignUp.jsx:22-25 | typing changes only the named field |
| SignUp.UsernameError | frontend/src/pages/SignUp.jsx:47-51 | the two username messages, and no error exactly when it has at least 3 characters |
| SignUp.PasswordError | frontend/src/pages/SignUp.jsx:54-58 | the two password messages, and no error exactly when it has at least 6 characters |
| SignUp.ConfirmError | frontend/src/pages/SignUp.jsx:61-65 | the two confirmation messages, and no error exactly when the confirmation is non-empty and equals the password |
| SignUp.FormErrors | frontend/src/pages/SignUp.jsx:35-66 | a field has an entry exactly when its rule fails, holding that rule's message |
| SignUp.Validate | frontend/src/pages/SignUp.jsx:35-69 | the step-by-step validation builds exactly FormErrors, and succeeds exactly when there are no errors |
| SignUp.NoKeysIsEmpty | frontend/src/pages/SignUp.jsx:68 | `Object.keys(errors).length === 0` holds exactly for the empty error object |
| SignUp.ValidIff | frontend/src/pages/SignUp.jsx:35-69 | the form is valid exactly when the email matches, the username has at least 3 characters, the password at least 6, and the confirmation equals the password |
| SignUp.ClearedOnInput | frontend/src/pages/SignUp.jsx:27-32 | typing blanks the field's shown error, keeps every key, and leaves the other errors alone |
| SignUp.Page.constructor | frontend/src/pages/SignUp.jsx:10-16 | the form starts empty with no errors |
| SignUp.Page.InputChange | frontend/src/pages/SignUp.jsx:20-33 | the named field becomes the typed value and its error is cleared |
| SignUp.Page.Submit | frontend/src/pages/SignUp.jsx:71-76 | the errors become FormErrors, and registration goes ahead exactly when there are none |
| Login.PasswordError | frontend/src/pages/Login.jsx:50-52 | only presence is checked: "Password is required" exactly for the empty password |
| Login.FormErrors | frontend/src/pages/Login.jsx:38-53 | the email and password entries exactly when their rules fail, and never a general entry |
| Login.Validate | frontend/src/pages/Login.jsx:38-55 | the validation builds exactly FormErrors and succeeds exactly when it is empty |
| Login.ValidIff | frontend/src/pages/Login.jsx:38-55 | the form is valid exactly when the email matches the pattern and the password is non-empty |
| Login.ClearedOnInput | frontend/src/pages/Login.jsx:23-35 | typing blanks the field's error and the general error, keeps every key, and leaves the rest alone |
| Login.FailureMessage | frontend/src/pages/Login.jsx:72-78 | a 400 is "Invalid email or password"; otherwise the server's non-empty message; otherwise "Failed to login. Please try again." |
| Login.Page.constructor | frontend/src/pages/Login.jsx:10-14 | the form starts empty with no errors |
| Login.Page.InputChange | frontend/src/pages/Login.jsx:16-36 | the named field becomes the typed value and its errors are cleared |
| Login.Page.Submit | frontend/src/pages/Login.jsx:56-82 | credentials are sent exactly when the form is valid; an invalid form shows FormErrors; a failed login shows only the general message |
| TaskList.Toggled | frontend/src/components/Home/Tasks.jsx:57-61 | the tasks with the id have their completion flipped, every other task is unchanged, and the length and ids are kept |
| TaskList.ToggleTwice | frontend/src/components/Home/Tasks.jsx:57-61 | toggling the same id twice restores the list |
| TaskList.ToggleCommutes | frontend/src/pages/Home.jsx:28-33 | toggles of two ids can be applied in either order |
| TaskList.MapNonEmpty | frontend/src/components/Home/Tasks.jsx:31 | `map(f).filter(s => s)` keeps no more elements than it was given |
| TaskList.SourcesIncreasing | frontend/src/components/Home/Tasks.jsx:31 | the positions whose images are kept lie in the list and increase |
| TaskList.MapNonEmptySources | frontend/src/components/Home/Tasks.jsx:31 | result i is the non-empty image of the element at the i-th source position, and there are as many results as sources |
| TaskList.SourcesComplete | frontend/src/components/Home/Tasks.jsx:31 | every element whose image is not empty has its position among the sources |
| TaskList.MapNonEmptyComplete | frontend/src/components/Home/Tasks.jsx:31 | every non-empty image is in the result |
| TaskList.MapNonEmptyFixed | frontend/src/components/Home/Tasks.jsx:31 | strings that are their own non-empty images are kept exactly |
| TaskList.TrimmedNonEmpty | frontend/src/components/Home/Tasks.jsx:31 | trimming the parts and dropping empty ones leaves trimmed non-empty tags, no more than there were parts |
| TaskList.TrimmedNonEmptyParts | frontend/src/components/Home/Tasks.jsx:31 | the tags are exactly the trimmed non-blank parts, in their order: tag i is the trimmed part at an increasing source position, and every non-blank part is listed |
| TaskList.TrimmedNonEmptyNoComma | frontend/src/components/Home/Tasks.jsx:31 | parts without commas stay without commas |
| TaskList.TrimmedNonEmptyKeeps | frontend/src/components/Home/Tasks.jsx:31 | well-formed tags pass through unchanged |
| TaskList.ParseTags | frontend/src/components/Home/Tasks.jsx:31 | no description, or an empty one, gives no tags; every tag is trimmed, non-empty and comma-free |
| TaskList.ParseJoinedTags | frontend/src/components/Home/Tasks.jsx:31-85 | tags written as one comma-joined description parse back to the same tags |
| TaskList.FromRecord | frontend/src/components/Home/Tasks.jsx:27-33 | a server record becomes a task with the same id, title as name, completion and project, and well-formed tags that are empty for a missing or empty description |
| TasksPanel.AddRequest | frontend/src/components/Home/Tasks.jsx:69-74 | nothing is sent exactly when the name is blank; the title is the trimmed name; the description is the trimmed tag text, or null exactly when that is blank |
| TasksPanel.FromRecords | frontend/src/components/Home/Tasks.jsx:27-33 | every fetched record becomes one task, in order |
| TasksPanel.Panel.constructor | frontend/src/components/Home/Tasks.jsx:7-11 | no tasks, form hidden and empty, loading |
| TasksPanel.Panel.LoadTasks | frontend/src/components/Home/Tasks.jsx:13-44 | without a token or user nothing is fetched; a response replaces the list; loading ends in every case |
| TasksPanel.Panel.ToggleTask | frontend/src/components/Home/Tasks.jsx:46-65 | the list is toggled only when there is a token and the request succeeds |
| TasksPanel.Panel.AddTask | frontend/src/components/Home/Tasks.jsx:67-97 | sends AddRequest when there is a token; on a reply the new task goes in front and the form is reset and hidden; otherwise nothing changes |
| TasksPanel.Panel.CancelAddTask | frontend/src/components/Home/Tasks.jsx:99-104 | the form is emptied and hidden; the list is kept |
| HomePage.InitialTasks | frontend/src/pages/Home.jsx:4-23 | three demo tasks with ids 1, 2 and 3, only the second completed, each tagged and without a project |
| HomePage.Page.constructor | frontend/src/pages/Home.jsx:4-26 | the page starts with the three demo tasks |
| HomePage.Page.ToggleTask | frontend/src/pages/Home.jsx:28-34 | the loop leaves exactly Toggled of the old list |
| HomePage.ToggleAndBack | frontend/src/pages/Home.jsx:28-34 | toggling a task of the page flips the completion of exactly the tasks with that id and keeps every other attribute; toggling it again restores the list |
| ProjectsSlider.TotalSlides | frontend/src/components/Projects/ProjectsSlider.jsx:53-54 | `Math.ceil(n/3)`: the fewest slides of three that hold n projects; zero exactly when there are none |
| ProjectsSlider.NextSlide | frontend/src/components/Projects/ProjectsSlider.jsx:56-58 | stays in [0, total); one on, and from the last slide back to the first |
| ProjectsSlider.PrevSlide | frontend/src/components/Projects/ProjectsSlider.jsx:60-62 | stays in [0, total); one back, and from the first slide round to the last |
| ProjectsSlider.NextPrevInverse | frontend/src/components/Projects/ProjectsSlider.jsx:56-62 | back then on, and on then back, return to the same slide |
| ProjectsSlider.SlideProjects | frontend/src/components/Projects/ProjectsSlider.jsx:103-106 | at most three projects: `projects[3k..3k+3]`, or the rest at the end; non-empty for every slide index in range |
| ProjectsSlider.Slides | frontend/src/components/Projects/ProjectsSlider.jsx:173-176 | one rendered slide per index, each the slice for that index |
| ProjectsSlider.SlidesPartition | frontend/src/components/Projects/ProjectsSlider.jsx:173-176 | read in order, the slides are the project list; each holds one to three projects |
| ProjectsSlider.Slider.constructor | frontend/src/components/Projects/ProjectsSlider.jsx:7-12 | no projects, loading, first slide, form hidden with the default colour |
| ProjectsSlider.Slider.CurrentSlideProjects | frontend/src/components/Projects/ProjectsSlider.jsx:103-106 | at most three projects; for an index in range, exactly the slide rendered there, non-empty |
| ProjectsSlider.Slider.LoadProjects | frontend/src/components/Projects/ProjectsSlider.jsx:20-51 | a response replaces the list only when there is a token and a user; loading ends in every case |
| ProjectsSlider.Slider.Next | frontend/src/components/Projects/ProjectsSlider.jsx:56-58 | with more than one slide, as the button requires, the slide moves on by NextSlide |
| ProjectsSlider.Slider.Prev | frontend/src/components/Projects/ProjectsSlider.jsx:60-62 | with more than one slide, the slide moves back by PrevSlide |
| ProjectsSlider.Slider.AddProject | frontend/src/components/Projects/ProjectsSlider.jsx:64-95 | a blank name or no token sends nothing; otherwise the trimmed name and chosen colour are sent; a reply is appended at the end and the form is reset |
| ProjectsSlider.Slider.CancelAddProject | frontend/src/components/Projects/ProjectsSlider.jsx:97-101 | the form is reset to its defaults and hidden |
| ColorMap.EntriesAreTable | frontend/src/utils/colorMap.js:3-102 | the entries in declaration order agree with the table, no key repeats, and every value is one of the eight styles |
| ColorMap.ScanByHex | frontend/src/utils/colorMap.js:117-121 | the scan returns a style from the entries whose upper-cased hex is the string, or finds none exactly when no entry has it |
| ColorMap.GetColorMapping | frontend/src/utils/colorMap.js:105-126 | the result is always one of the eight styles, blue for a missing or empty colour, and the table's entry for a colour that is a key of the table |
| ColorMap.HexCodesUpperCase | frontend/src/utils/colorMap.js:3-102 | every style's hex code is written in upper case |
| ColorMap.HexCodesAreKeys | frontend/src/utils/colorMap.js:3-102 | every style's hex code is a key of the table naming that style |
| ColorMap.HashKeysAreHexCodes | frontend/src/utils/colorMap.js:3-102 | every key starting with '#' is the hex code of the style it names |
| ColorMap.HexKeysNameTheirStyle | frontend/src/utils/colorMap.js:3-102 | every style's hex code is upper case and is a key naming that style |
| ColorMap.ScanFindsNothingNew | frontend/src/utils/colorMap.js:112-121 | for a string that is not a key, the value scan finds nothing, so it never decides the result |
| ColorMap.MappingIsReference | frontend/src/utils/colorMap.js:105-126 | the lookup equals the exact key, else the upper-cased key for a hex string, else blue |
| ColorMap.HexCaseInsensitive | frontend/src/utils/colorMap.js:112-114 | a hex code is matched whatever the case of its letters |
| Api.BaseUrl | frontend/src/utils/api.js:2 | the configured base URL unless it is missing or empty, then `http://localhost:3000` |
| Api.CreateApiUrl | frontend/src/utils/api.js:5-9 | the base, `/api/`, and the endpoint with one leading slash removed |
| Api.EndpointRoundTrip | frontend/src/utils/api.js:5-9 | the endpoint read back from the URL is the endpoint without one leading slash |
| Api.LeadingSlashOptional | frontend/src/utils/api.js:7 | a leading slash makes no difference exactly when the endpoint does not already start with one |
| Api.Ping | frontend/src/utils/api.js:14 | the URL lies under the base's "/api/" and reads back as the path `ping` |
| Api.AuthMe | frontend/src/utils/api.js:17 | the URL lies under the base's "/api/" and reads back as the path `auth/me` |
| Api.AuthLogin | frontend/src/utils/api.js:18 | the URL lies under the base's "/api/" and reads back as the path `auth/login` |
| Api.AuthRegister | frontend/src/utils/api.js:19 | the URL lies under the base's "/api/" and reads back as the path `auth/register` |
| Api.Projects | frontend/src/utils/api.js:22 | the URL lies under the base's "/api/" and reads back as the path `projects` |
| Api.Tasks | frontend/src/utils/api.js:26 | the URL lies under the base's "/api/" and reads back as the path `tasks` |
| Api.Messages | frontend/src/utils/api.js:30 | the URL lies under the base's "/api/" and reads back as the path `messages` |
| Api.ProjectById | frontend/src/utils/api.js:23 | the projects URL, '/', and the id |
| Api.TaskById | frontend/src/utils/api.js:27 | the tasks URL, '/', and the id |
| Js.Trim | backend/controllers/firstController.js:13 | `trim` of a blank string is empty; otherwise the result neither starts nor ends with white space |
| Js.TrimSlice | backend/controllers/firstController.js:13 | the trimmed string is one contiguous piece of the original |
| Js.TrimBlank | backend/controllers/firstController.js:13-15 | trimming both ends leaves nothing exactly when the string is all white space |
| Js.TrimDropsWhitespace | backend/controllers/firstController.js:13 | every character outside the trimmed piece is white space |
| Js.Split | frontend/src/components/Home/Tasks.jsx:31 | `split(',')` gives at least one part, and no part contains the separator |
| Js.JoinSplit | frontend/src/components/Home/Tasks.jsx:31 | joining the parts of a split gives the string back |
| Js.SplitJoin | frontend/src/components/Home/Tasks.jsx:31 | splitting a join of separator-free parts gives the parts back |
| Js.PadStart | frontend/src/components/Home/Timer.jsx:123 | `padStart` fills on the left up to the target length and keeps the string at the end |
| Js.NatToString | frontend/src/components/Home/Timer.jsx:123 | `toString` of a natural number is a non-empty digit string with no leading zero, of one digit exactly below 10 |
| Js.NatToStringValue | frontend/src/components/Home/Timer.jsx:123 | the decimal digits read back as the number |
| Js.ToUpper | frontend/src/utils/colorMap.js:113 | the result has the length of the input and each character is that of the input with the ASCII letters a to z turned into A to Z |
| Js.Slice | frontend/src/components/Projects/ProjectsSlider.jsx:105 | `slice` with its bounds clamped to the list |
| Welcome.Falsy | backend/controllers/firstController.js:6 | `!name` holds exactly for undefined, null, false, 0 and the empty string |
| Welcome.Greeting | backend/controllers/firstController.js:30 | the success message is the fixed prefix, the name and the fixed suffix, so its length is theirs together |
| Welcome.WelcomeMessage | backend/controllers/firstController.js:1-45 | a missing body is 500; a falsy or non-string name is 400 "Please provide a valid name"; a blank name is 400 "Name cannot be empty"; a trimmed name over 50 characters is 400 "Name is too long (max 50 characters)"; success is exactly status 200 |
| Welcome.WelcomeSucceedsIff | backend/controllers/firstController.js:6-36 | a name is greeted exactly when it is a string whose trimmed length is 1 to 50; the greeting carries the trimmed name, which reads back out of it, and is marked not cached |
| Store.InsertCounts | backend/controllers/tasksController.js:26 | inserting adds exactly the one element and keeps every other |
| Store.InsertDescending | backend/controllers/tasksController.js:26 | inserting into a descending list keeps it descending |
| Store.SortDesc | backend/controllers/tasksController.js:26 | `.sort('-key')` gives a permutation of the list in descending key order |
| Store.OwnedBy | backend/controllers/tasksController.js:25 | the documents of one owner: every copy of them and nothing else |
| Store.CountOwnedBy | backend/controllers/projectController.js:39 | `countDocuments({ owner })` is at most the size of the collection and is zero exactly when no document has that owner |
| Store.CountIsLength | backend/controllers/projectController.js:39 | counting the owner's documents gives the length of the owner's list |
| Store.Identifies | backend/controllers/tasksController.js:38-41 | the `{ _id, user }` filter selects a task exactly when it has that id and belongs to that user |
| Store.Lookup | backend/controllers/tasksController.js:37-41 | the first task with this id and this user, or none exactly when no task has both |
| Store.LookupIsOnly | backend/controllers/tasksController.js:37-41 | with unique ids, a task with this id and user is the one the search finds |
| Store.DeleteManyMatches | backend/controllers/tasksController.js:79-82 | the `deleteMany` filter selects a task exactly when it is completed, belongs to the user and, when a project is given, is in that project |
| Store.Remaining | backend/controllers/tasksController.js:79-82 | the collection after `deleteMany`: it never grows and no task it keeps is one the filter selects (its counts and members are in the lemmas below) |
| Store.RemainingCounts | backend/controllers/tasksController.js:79-82 | `deleteMany` removes every copy of each selected task and keeps every copy of the others |
| Store.RemainingMembers | backend/controllers/tasksController.js:79-82 | the remaining tasks are exactly the unselected tasks of the table |
| Store.RemainingLength | backend/controllers/tasksController.js:84 | the deleted count is zero exactly when the filter selects no task |
| Store.RemainingUnselected | backend/controllers/tasksController.js:84-86 | when the filter selects nothing, the table is unchanged |
| Store.RemainingValid | backend/controllers/tasksController.js:79-82 | deleting keeps the ids unique and below the counter |
| Store.HasProject | backend/controllers/tasksController.js:99-102 | `Project.findOne({ _id, owner })` finds a document: some project has that id and that owner; FindProject is proved to decide it |
| Store.Database.constructor | backend/models/Task.js:3-37 | the collections start empty |
| Store.Database.FindTask | backend/controllers/tasksController.js:37-41 | the scan returns exactly Lookup |
| Store.Database.FindProject | backend/controllers/tasksController.js:99-102 | the scan finds a project exactly when one has this id and this owner |
| Store.Database.DeleteMany | backend/controllers/tasksController.js:79-82 | the loop leaves exactly the unselected tasks, reports how many went, and keeps the database valid |
| TasksController.OrNull | backend/controllers/tasksController.js:8 | `value \|\| null`: null exactly when the value is missing or empty, otherwise the value |
| TasksController.CreateTask | backend/controllers/tasksController.js:4-21 | 201; the new task has a fresh id, the caller as user, now as date and is not completed; it has no description or project unless one was sent; it is appended, and the caller can find it by its id |
| TasksController.GetUserTasks | backend/controllers/tasksController.js:23-33 | every task of the caller and no other, each as often as stored, newest first |
| TasksController.Toggle | backend/controllers/tasksController.js:44 | the update `$not: "$isCompleted"` negates the completion flag and changes nothing else |
| TasksController.ToggledTasks | backend/controllers/tasksController.js:37-48 | the one task with this id and user has its completion negated; every other task is unchanged, and ids and users are kept |
| TasksController.ToggleTwice | backend/controllers/tasksController.js:37-48 | toggling the same task twice restores the collection |
| TasksController.ToggleTask | backend/controllers/tasksController.js:35-58 | with a matching task, the collection becomes ToggledTasks and the updated task is sent; without one the reply is 404 "Task not found" and nothing changes |
| TasksController.DeletedTasks | backend/controllers/tasksController.js:62-65 | the matching task is gone and every other task is kept; with unique ids none with that id and user is left, so a second delete finds nothing |
| TasksController.DeleteTask | backend/controllers/tasksController.js:60-75 | with a matching task, it is removed and sent back with "Task deleted successfully"; without one the reply is 404 "Task not found" and nothing changes |
| TasksController.DeleteAllTasks | backend/controllers/tasksController.js:77-92 | exactly the caller's completed tasks are removed; when there are none the reply is 404 "No completed tasks!" and nothing changes |
| TasksController.DeleteCompletedTasksForProject | backend/controllers/tasksController.js:94-125 | a project the caller does not own is 404 "Project not found" and changes nothing; otherwise exactly the caller's completed tasks in it are removed and their positive number is reported, or 404 when there are none |
| ProjectController.CreateProject | backend/controllers/projectController.js:3-16 | 201; the new project has a fresh id, the sent name, the caller as owner, the sent colour or blue, and now as creation time; it is appended and the caller owns it |
| ProjectController.GetUserProjects | backend/controllers/projectController.js:18-31 | without a user, 401 "Unauthorized: User not found"; otherwise every project the caller owns and no other, newest first |
| ProjectController.GetProjectCount | backend/controllers/projectController.js:33-45 | without a user, 401; otherwise the count equals the length of the list getUserProjects answers with |

## Left out

- Network, localStorage, `document.title`, timers (`setInterval`), `Date.now()` and the server's replies: they are parameters of the operations or left out. The home timer's store is a map field.
- `getProgress` in both timers: it uses floating point.
- `intervalRef` and `clearInterval`: the interval bookkeeping has no state worth modelling beyond when a tick happens, which `Tick` covers.
- SettingsModal.Shown: a number input is taken to carry the draft's value once React has rendered it; the browser's own handling of partial numeric text (such as "1e") is left out.
- React's batching of state updates: each handler is modelled as one atomic update of the component's fields.
- A drift-corrected clock, a persisted phase record and productive-time logging are not features of this code, so they are not modelled.
- The `toggleTask` in frontend/src/components/Timer.jsx:120-127: it is dead code that refers to a state the component does not have.
- `parseInt`: its result is a parameter (`Option<int>`), not a parser of digit strings.
- String lengths count code points, not UTF-16 code units.
- Js.ToUpper: only the ASCII letters a to z are upper-cased; the other Unicode case mappings of `toUpperCase` are left out, because the colour keys it is applied to are hex codes.
- ColorMap.GetColorMapping: colours that are not strings are left out, and so are keys inherited from `Object.prototype` that `colorMap[color]` would also find.
- Mongoose schema validation (required fields, length limits, trimming on save) and the Task post-save hook on user statistics are left out; these run in the database library.
- `populate` is left out: tasks carry their project's id, not the project's name and colour.
- Ids that are not valid object ids (a cast error gives 500) and any other 500 path of the controllers are left out. So are the 4xx paths of the settings submit.
- Store.SortDesc: ties between equal dates are placed by insertion order. MongoDB leaves their order unspecified, so only the descending order and the permutation are promised.
- Authentication (`authController.js`, `authMiddleware.js`, `AuthContext.jsx`) and `useServerReady` are not part of this model. They rest on JWT and bcrypt. The caller's user id is a parameter.
- TasksController.CreateTask: `projectId` is an optional id, so a project id that is present but refers to no project is stored as it is, as MongoDB would store it.
- The welcome endpoint's `name` ranges over the JSON values undefined, null, booleans, integers, strings and objects. NaN and non-integer numbers are left out.
