/** The movie search of src/handlers/search.py: normalising the records of the
    Kinopoisk API, shaping the search results, the film caption, the choice
    buttons and their callback data, and the genre filter of the random-movie
    request. The HTTP answers are inputs: `None` stands for a request or a
    decoding that raised. */
module Search {
  import opened PyText

  // ------------------------------------------------------------ JSON values

  /** A decoded JSON value. Floats, arrays and objects appear in the handlers
      only through their truthiness and their printed form, which is all the
      model keeps of them. */
  datatype Json = JNull | JBool(b: bool) | JInt(i: int) | JStr(s: string) | JOther(repr: string, truthy: bool)

  /** Python truthiness. */
  predicate Truthy(v: Json) {
    match v
    case JNull => false
    case JBool(b) => b
    case JInt(i) => i != 0
    case JStr(s) => s != ""
    case JOther(_, t) => t
  }

  /** `str(v)`, which is also what an f-string prints. */
  function Str(v: Json): string {
    match v
    case JNull => "None"
    case JBool(b) => if b then "True" else "False"
    case JInt(i) => IntToString(i)
    case JStr(s) => s
    case JOther(repr, _) => repr
  }

  /** A JSON object as `json()` returns it. */
  type Record = map<string, Json>

  /** `r.get(k)`. */
  function Get(r: Record, k: string): Json {
    if k in r then r[k] else JNull
  }

  /** `r.get(k, d)`. */
  function GetOr(r: Record, k: string, d: Json): Json {
    if k in r then r[k] else d
  }

  /** `a or b`. */
  function Or(a: Json, b: Json): (r: Json)
    ensures Truthy(r) <==> Truthy(a) || Truthy(b)
    ensures Truthy(a) ==> r == a
    ensures !Truthy(a) ==> r == b
  {
    if Truthy(a) then a else b
  }

  // ------------------------------------------------------------ normalize_film_data

  /** The normalised film dictionary `{id, name, year, rating, poster}`. */
  datatype Film = Film(id: string, name: Json, year: Json, rating: Json, poster: Json)

  const NoTitle := "Без названия"
  const NoData := "нет данных"

  /** The first branch, written for search results (API v2.1). */
  function FromSearchRecord(r: Record): (f: Film)
    ensures Truthy(f.name)
    ensures Truthy(Get(r, "nameRu")) ==> f.name == Get(r, "nameRu")
    ensures !Truthy(Get(r, "nameRu")) && Truthy(Get(r, "nameEn")) ==> f.name == Get(r, "nameEn")
    ensures !Truthy(Get(r, "nameRu")) && !Truthy(Get(r, "nameEn")) ==> f.name == JStr(NoTitle)
    ensures f.id == if Truthy(Get(r, "filmId")) then Str(Get(r, "filmId")) else Str(Get(r, "kinopoiskId"))
  {
    Film(
      Str(Or(Get(r, "filmId"), Get(r, "kinopoiskId"))),
      Or(Or(Get(r, "nameRu"), Get(r, "nameEn")), JStr(NoTitle)),
      GetOr(r, "year", JStr("")),
      GetOr(r, "rating", JStr(NoData)),
      Or(Get(r, "posterUrlPreview"), Get(r, "posterUrl")))
  }

  /** The second branch, written for film details (API v2.2): the id is
      `kinopoiskId`, the name falls back to `nameOriginal` and the rating
      to `ratingKinopoisk`, then `ratingImdb`, then `нет данных`. */
  function FromDetailsRecord(r: Record): (f: Film)
    ensures f.id == Str(Get(r, "kinopoiskId"))
    ensures Truthy(f.name) && Truthy(f.rating)
    ensures Truthy(Get(r, "nameRu")) ==> f.name == Get(r, "nameRu")
    ensures !Truthy(Get(r, "nameRu")) && Truthy(Get(r, "nameOriginal")) ==> f.name == Get(r, "nameOriginal")
    ensures !Truthy(Get(r, "nameRu")) && !Truthy(Get(r, "nameOriginal")) ==> f.name == JStr(NoTitle)
    ensures Truthy(Get(r, "ratingKinopoisk")) ==> f.rating == Get(r, "ratingKinopoisk")
    ensures !Truthy(Get(r, "ratingKinopoisk")) && Truthy(Get(r, "ratingImdb")) ==> f.rating == Get(r, "ratingImdb")
    ensures !Truthy(Get(r, "ratingKinopoisk")) && !Truthy(Get(r, "ratingImdb")) ==> f.rating == JStr(NoData)
  {
    Film(
      Str(Get(r, "kinopoiskId")),
      Or(Or(Get(r, "nameRu"), Get(r, "nameOriginal")), JStr(NoTitle)),
      GetOr(r, "year", JStr("")),
      Or(Or(Get(r, "ratingKinopoisk"), Get(r, "ratingImdb")), JStr(NoData)),
      Or(Get(r, "posterUrlPreview"), Get(r, "posterUrl")))
  }

  /** `normalize_film_data`. The details branch is never taken: every record
      with `kinopoiskId` already satisfies the first test, so the rating
      always comes from the `rating` key. */
  function NormalizeFilmData(r: Record): (res: Option<Film>)
    ensures res.None? <==> |r| == 0 || ("filmId" !in r && "kinopoiskId" !in r)
    ensures res.Some? ==> res.value == FromSearchRecord(r)
    ensures res.Some? ==> Truthy(res.value.name)
    ensures res.Some? ==> res.value.rating == GetOr(r, "rating", JStr(NoData))
  {
    if |r| == 0 then None
    else if "filmId" in r || "kinopoiskId" in r then Some(FromSearchRecord(r))
    else if "kinopoiskId" in r then Some(FromDetailsRecord(r))
    else None
  }

  /** The keys the search branch reads. */
  const SearchKeys := {"filmId", "kinopoiskId", "nameRu", "nameEn", "year", "rating", "posterUrlPreview", "posterUrl"}

  /** The search branch reads nothing but `SearchKeys`. */
  lemma SearchKeysOnly(r: Record, r': Record)
    requires forall key :: key in SearchKeys ==> (key in r' <==> key in r) && (key in r ==> r'[key] == r[key])
    ensures FromSearchRecord(r') == FromSearchRecord(r)
  {
    assert forall key :: key in SearchKeys ==> Get(r', key) == Get(r, key);
  }

  /** The keys only the details branch reads make no difference to the
      result: the details branch is dead code. */
  lemma DetailsKeysIgnored(r: Record, k: string, v: Json)
    requires k in {"nameOriginal", "ratingKinopoisk", "ratingImdb"}
    ensures NormalizeFilmData(r[k := v]) == NormalizeFilmData(r)
  {
    var r' := r[k := v];
    assert k !in SearchKeys;
    SearchKeysOnly(r, r');
    assert k in r';
  }

  /** A search record with a non-zero integer `filmId` gets that number,
      printed in decimal, as its id. */
  lemma IdOfIntegerFilmId(r: Record, n: int)
    requires "filmId" in r && r["filmId"] == JInt(n) && n != 0
    ensures NormalizeFilmData(r).Some? && NormalizeFilmData(r).value.id == IntToString(n)
  {
  }

  // ------------------------------------------------------------ search_movies

  const MaxResults := 5

  /** The normalised films of a list of records, dropping the ones that
      normalise to None, in their original order. */
  function NormalizeAll(records: seq<Record>): (films: seq<Film>)
    ensures |films| <= |records|
    ensures forall f | f in films :: Truthy(f.name)
  {
    if records == [] then []
    else match NormalizeFilmData(records[0])
      case Some(f) => [f] + NormalizeAll(records[1..])
      case None => NormalizeAll(records[1..])
  }

  lemma {:induction false} NormalizeAllAppend(a: seq<Record>, b: seq<Record>)
    ensures NormalizeAll(a + b) == NormalizeAll(a) + NormalizeAll(b)
  {
    if a == [] {
      assert a + b == b;
    } else {
      assert (a + b)[0] == a[0];
      assert (a + b)[1..] == a[1..] + b;
      NormalizeAllAppend(a[1..], b);
      match NormalizeFilmData(a[0])
      case Some(f) =>
        calc {
          NormalizeAll(a + b);
          [f] + NormalizeAll(a[1..] + b);
          [f] + (NormalizeAll(a[1..]) + NormalizeAll(b));
          ([f] + NormalizeAll(a[1..])) + NormalizeAll(b);
        }
      case None =>
    }
  }

  /** Every film in the result comes from a record of the input, and the
      result is never longer than the input. */
  lemma {:induction false} NormalizeAllFromInput(records: seq<Record>)
    ensures |NormalizeAll(records)| <= |records|
    ensures forall f | f in NormalizeAll(records) ::
              exists j :: 0 <= j < |records| && NormalizeFilmData(records[j]) == Some(f)
  {
    if records != [] {
      NormalizeAllFromInput(records[1..]);
      forall f | f in NormalizeAll(records)
        ensures exists j :: 0 <= j < |records| && NormalizeFilmData(records[j]) == Some(f)
      {
        if NormalizeFilmData(records[0]) == Some(f) {
        } else {
          var j :| 0 <= j < |records[1..]| && NormalizeFilmData(records[1..][j]) == Some(f);
          assert records[j + 1] == records[1..][j];
        }
      }
    }
  }

  /** Records that all carry `filmId` or `kinopoiskId` are all kept, one
      film per record. */
  lemma {:induction false} NormalizeAllKeepsIdentified(records: seq<Record>)
    requires forall j :: 0 <= j < |records| ==> "filmId" in records[j] || "kinopoiskId" in records[j]
    ensures |NormalizeAll(records)| == |records|
    ensures forall j :: 0 <= j < |records| ==> NormalizeAll(records)[j] == FromSearchRecord(records[j])
  {
    if records != [] {
      var rest := records[1..];
      assert forall j :: 0 <= j < |rest| ==> rest[j] == records[j + 1];
      NormalizeAllKeepsIdentified(rest);
      assert NormalizeFilmData(records[0]) == Some(FromSearchRecord(records[0]));
      assert NormalizeAll(records) == [FromSearchRecord(records[0])] + NormalizeAll(rest);
    }
  }

  /** The films `search_movies` returns for a provider answer: the first five
      records, normalised, or nothing when the request failed. */
  function SearchResults(response: Option<seq<Record>>): (films: seq<Film>)
    ensures |films| <= MaxResults
  {
    match response
    case None => []
    case Some(records) =>
      var head := if |records| <= MaxResults then records else records[..MaxResults];
      NormalizeAllFromInput(head);
      NormalizeAll(head)
  }

  /** `search_movies`: the loop over at most five records. */
  method SearchMovies(response: Option<seq<Record>>) returns (films: seq<Film>)
    ensures films == SearchResults(response)
    ensures |films| <= MaxResults
    ensures response.Some? ==> forall f | f in films ::
              exists j :: 0 <= j < |response.value| && j < MaxResults && NormalizeFilmData(response.value[j]) == Some(f)
  {
    films := [];
    if response.None? {
      return;
    }
    var records := response.value;
    var head := if |records| <= MaxResults then records else records[..MaxResults];
    for i := 0 to |head|
      invariant films == NormalizeAll(head[..i])
    {
      NormalizeAllAppend(head[..i], [head[i]]);
      assert head[..i + 1] == head[..i] + [head[i]];
      var normalized := NormalizeFilmData(head[i]);
      if normalized.Some? {
        films := films + [normalized.value];
      }
    }
    assert head[..|head|] == head;
    NormalizeAllFromInput(head);
    forall f | f in films
      ensures exists j :: 0 <= j < |records| && j < MaxResults && NormalizeFilmData(records[j]) == Some(f)
    {
      var j :| 0 <= j < |head| && NormalizeFilmData(head[j]) == Some(f);
      assert head[j] == records[j];
    }
  }

  // ------------------------------------------------------------ send_movie_info

  const FilmLinkPrefix := "https://www.kinopoisk.ru/film/"

  function NameLine(f: Film): string { "🎬 " + Str(f.name) }
  function YearLine(f: Film): string { "📅 Год: " + Str(f.year) }
  function RatingLine(f: Film): string { "⭐ Рейтинг: " + Str(f.rating) }
  function LinkLine(id: string): string { "🔗 " + FilmLinkPrefix + id + "/" }

  /** The four candidate lines; the year line is empty for a falsy year. */
  function InfoLines(f: Film): seq<string> {
    [NameLine(f), if Truthy(f.year) then YearLine(f) else "", RatingLine(f), LinkLine(f.id)]
  }

  /** The caption: the non-empty lines joined with newlines. It opens with
      the film's name and closes with the link to its page. */
  function Caption(f: Film): (c: string)
    ensures StartsWith(c, NameLine(f))
    ensures |LinkLine(f.id)| <= |c| && c[|c| - |LinkLine(f.id)|..] == LinkLine(f.id)
  {
    CaptionLines(f);
    JoinEnds(NonEmpty(InfoLines(f)), '\n');
    Join(NonEmpty(InfoLines(f)), '\n')
  }

  /** The caption, line by line: the name, the year only when it is truthy,
      the rating, and the link to the film's page last. */
  lemma CaptionLayout(f: Film)
    ensures Caption(f) == NameLine(f) + (if Truthy(f.year) then "\n" + YearLine(f) else "")
                          + "\n" + RatingLine(f) + "\n" + LinkLine(f.id)
  {
    CaptionLines(f);
    if Truthy(f.year) {
      JoinFour(NameLine(f), YearLine(f), RatingLine(f), LinkLine(f.id));
    } else {
      JoinThree(NameLine(f), RatingLine(f), LinkLine(f.id));
    }
  }

  lemma JoinThree(a: string, b: string, c: string)
    ensures Join([a, b, c], '\n') == a + "\n" + b + "\n" + c
  {
    JoinPair(b, c);
    JoinCons(a, [b, c]);
    assert [a] + [b, c] == [a, b, c];
  }

  lemma JoinFour(a: string, b: string, c: string, d: string)
    ensures Join([a, b, c, d], '\n') == a + ("\n" + b) + "\n" + c + "\n" + d
  {
    JoinThree(b, c, d);
    JoinCons(a, [b, c, d]);
    assert [a] + [b, c, d] == [a, b, c, d];
  }

  lemma JoinPair(a: string, b: string)
    ensures Join([a, b], '\n') == a + "\n" + b
  {
    assert [a, b][1..] == [b];
  }

  lemma JoinCons(a: string, rest: seq<string>)
    requires rest != []
    ensures Join([a] + rest, '\n') == a + "\n" + Join(rest, '\n')
  {
    assert ([a] + rest)[1..] == rest;
  }

  /** Only the year placeholder can be empty, so only it is filtered out. */
  lemma CaptionLines(f: Film)
    ensures NonEmpty(InfoLines(f)) == if Truthy(f.year)
                                      then [NameLine(f), YearLine(f), RatingLine(f), LinkLine(f.id)]
                                      else [NameLine(f), RatingLine(f), LinkLine(f.id)]
  {
    var name, rating, link := NameLine(f), RatingLine(f), LinkLine(f.id);
    var yearItem := if Truthy(f.year) then YearLine(f) else "";
    assert InfoLines(f) == [name] + ([yearItem] + ([rating] + [link]));
    NonEmptyCons(link, []);
    NonEmptyCons(rating, [link]);
    NonEmptyCons(yearItem, [rating, link]);
    assert [rating] + [link] == [rating, link];
    NonEmptyCons(name, [yearItem, rating, link]);
    assert [yearItem] + [rating, link] == [yearItem, rating, link];
  }

  /** What `send_movie_info` sends. */
  datatype MovieReply = Unavailable | Photo(poster: Json, caption: string) | Plain(caption: string)

  function SendMovieInfo(film: Option<Film>): (r: MovieReply)
    ensures r.Unavailable? <==> film.None?
    ensures r.Photo? <==> film.Some? && Truthy(film.value.poster)
    ensures r.Photo? ==> r.poster == film.value.poster
    ensures film.Some? ==> r.caption == Caption(film.value)
  {
    match film
    case None => Unavailable
    case Some(f) => if Truthy(f.poster) then Photo(f.poster, Caption(f)) else Plain(Caption(f))
  }

  // ------------------------------------------------------------ choice buttons and callbacks

  datatype Button = Button(text: string, callbackData: string)

  const FilmCallbackPrefix := "film_"
  const GenreCallbackPrefix := "genre_"

  /** The label of a choice button: the name, and the year in parentheses
      when the year is truthy. */
  function FilmLabel(f: Film): (text: string)
    ensures StartsWith(text, Str(f.name))
    ensures !Truthy(f.year) ==> text == Str(f.name)
    ensures Truthy(f.year) ==> text[|Str(f.name)|..] == " (" + Str(f.year) + ")"
  {
    if Truthy(f.year) then Str(f.name) + " (" + Str(f.year) + ")" else Str(f.name)
  }

  /** A choice button: the label, and the film's id behind `film_`. */
  function FilmButton(f: Film): (b: Button)
    ensures b.text == FilmLabel(f) && StartsWith(b.text, Str(f.name))
    ensures StartsWith(b.callbackData, FilmCallbackPrefix) && b.callbackData[|FilmCallbackPrefix|..] == f.id
  {
    Button(FilmLabel(f), FilmCallbackPrefix + f.id)
  }

  /** The button loop of `process_search`. */
  method BuildFilmButtons(films: seq<Film>) returns (buttons: seq<Button>)
    ensures |buttons| == |films|
    ensures forall k :: 0 <= k < |films| ==> buttons[k] == FilmButton(films[k])
    ensures forall k :: 0 <= k < |films| ==> StartsWith(buttons[k].text, Str(films[k].name))
  {
    buttons := [];
    for i := 0 to |films|
      invariant |buttons| == i
      invariant forall k :: 0 <= k < i ==> buttons[k] == FilmButton(films[k])
    {
      var text := Str(films[i].name);
      if Truthy(films[i].year) {
        text := text + " (" + Str(films[i].year) + ")";
      }
      assert text == FilmLabel(films[i]);
      var button := Button(text, FilmCallbackPrefix + films[i].id);
      assert button == FilmButton(films[i]);
      buttons := buttons + [button];
    }
    forall k | 0 <= k < |films| ensures StartsWith(buttons[k].text, Str(films[k].name)) {
      assert buttons[k] == FilmButton(films[k]);
    }
  }

  /** `callback.data.split("_")[1]`; None where Python raises `IndexError`. */
  function CallbackArgument(data: string): (r: Option<string>)
    ensures r.None? <==> '_' !in data
    ensures r.Some? ==> '_' !in r.value
  {
    var parts := Split(data, '_');
    SplitHasTwo(data, '_');
    if |parts| >= 2 then Some(parts[1]) else None
  }

  /** The argument of callback data built as `prefix_argument` is read back
      when neither part holds an underscore. */
  lemma CallbackRoundTrip(prefix: string, argument: string)
    requires '_' !in prefix && '_' !in argument
    ensures CallbackArgument(prefix + "_" + argument) == Some(argument)
  {
    SplitAfterPiece(prefix, '_', argument);
    SplitWithoutSeparator(argument, '_');
    assert prefix + "_" + argument == prefix + ['_'] + argument;
  }

  /** Callback data that starts with a separator-free `prefix_` has an
      argument, which is all the rest when the rest has no separator. */
  lemma ArgumentAfterPrefix(prefix: string, data: string)
    requires '_' !in prefix && StartsWith(data, prefix + "_")
    ensures CallbackArgument(data).Some?
    ensures '_' !in data[|prefix| + 1..] ==> CallbackArgument(data).value == data[|prefix| + 1..]
  {
    var rest := data[|prefix| + 1..];
    assert data == prefix + ['_'] + rest;
    SplitAfterPiece(prefix, '_', rest);
    if '_' !in rest {
      SplitWithoutSeparator(rest, '_');
    }
  }

  /** A film whose id is an integer is found again from its button. */
  lemma FilmButtonRoundTrip(f: Film, n: int)
    requires f.id == IntToString(n)
    ensures CallbackArgument(FilmButton(f).callbackData) == Some(f.id)
  {
    assert '_' !in f.id by {
      forall k | 0 <= k < |f.id| ensures f.id[k] != '_' {
        assert IsDigit(f.id[k]) || f.id[k] == '-';
      }
    }
    CallbackRoundTrip("film", f.id);
    assert FilmCallbackPrefix + f.id == "film" + "_" + f.id;
  }

  // ------------------------------------------------------------ process_search

  const MinTitleLength := 2

  /** What `process_search` answers. */
  datatype SearchReply = TooShort | NotFound | Info(info: MovieReply) | Choose(buttons: seq<Button>)

  /** The answer to a list of found films: nothing found, the film itself,
      or one button per film. */
  function ResultsReply(films: seq<Film>): (r: SearchReply)
    ensures r.NotFound? <==> films == []
    ensures r.Info? <==> |films| == 1
    ensures r.Choose? <==> |films| > 1
    ensures r.Info? ==> r.info == SendMovieInfo(Some(films[0])) && !r.info.Unavailable?
    ensures r.Choose? ==> |r.buttons| == |films|
    ensures r.Choose? ==> forall k :: 0 <= k < |films| ==> r.buttons[k] == FilmButton(films[k])
    ensures !r.TooShort?
  {
    if films == [] then NotFound
    else if |films| == 1 then Info(SendMovieInfo(Some(films[0])))
    else Choose(seq(|films|, k requires 0 <= k < |films| => FilmButton(films[k])))
  }

  /** The search conversation: the users in `waiting_for_title`. */
  class TitleSearch {
    var waiting: set<int>

    constructor ()
      ensures waiting == {}
    {
      waiting := {};
    }

    /** `start_search`. */
    method StartSearch(u: int)
      modifies this
      ensures waiting == old(waiting) + {u}
    {
      waiting := waiting + {u};
    }

    /** `process_search`: a stripped title under two characters is refused
        and the user keeps waiting; otherwise the stripped title is sent to
        the provider, whose answer is `response`, the films found are shown
        and the state is cleared. */
    method ProcessSearch(u: int, text: string, response: Option<seq<Record>>)
      returns (query: Option<string>, reply: SearchReply)
      requires u in waiting
      modifies this
      ensures |Strip(text)| < MinTitleLength ==> reply == TooShort && query == None && waiting == old(waiting)
      ensures |Strip(text)| >= MinTitleLength ==>
                && query == Some(Strip(text))
                && reply == ResultsReply(SearchResults(response))
                && waiting == old(waiting) - {u}
    {
      var title := Strip(text);
      if |title| < MinTitleLength {
        query, reply := None, TooShort;
        return;
      }
      query := Some(title);
      var films := SearchMovies(response);
      reply := AnswerResults(films);
      waiting := waiting - {u};
    }
  }

  /** The branch of `process_search` that answers the films found. */
  method AnswerResults(films: seq<Film>) returns (reply: SearchReply)
    ensures reply == ResultsReply(films)
  {
    if films == [] {
      reply := NotFound;
    } else if |films| == 1 {
      reply := Info(SendMovieInfo(Some(films[0])));
    } else {
      var buttons := BuildFilmButtons(films);
      assert buttons == seq(|films|, k requires 0 <= k < |films| => FilmButton(films[k]));
      reply := Choose(buttons);
    }
  }

  // ------------------------------------------------------------ film details

  datatype DetailsReply = Shown(info: MovieReply) | LoadFailed

  /** `show_movie_details` for callback data starting with `film_`: the id
      it asks the provider for, and what it answers given the provider's
      record (`None` when the request failed). */
  function ShowMovieDetails(data: string, fetched: Option<Record>): (r: (string, DetailsReply))
    requires StartsWith(data, FilmCallbackPrefix)
    ensures CallbackArgument(data).Some? && r.0 == CallbackArgument(data).value
    ensures '_' !in r.0
    ensures '_' !in data[|FilmCallbackPrefix|..] ==> r.0 == data[|FilmCallbackPrefix|..]
    ensures r.1.Shown? <==> fetched.Some? && NormalizeFilmData(fetched.value).Some?
    ensures r.1.Shown? ==> r.1.info == SendMovieInfo(NormalizeFilmData(fetched.value))
  {
    ArgumentAfterPrefix("film", data);
    var id := CallbackArgument(data).value;
    var film := if fetched.Some? then NormalizeFilmData(fetched.value) else None;
    (id, if film.Some? then Shown(SendMovieInfo(film)) else LoadFailed)
  }

  // ------------------------------------------------------------ random movie and genres

  /** `MAIN_GENRES`, in its declaration order. */
  const MainGenres: seq<(string, int)> := [
    ("комедия", 13), ("драма", 2), ("боевик", 11), ("фантастика", 6), ("ужасы", 17),
    ("триллер", 1), ("мелодрама", 4), ("детектив", 5), ("мультфильм", 18), ("фэнтези", 12)
  ]

  /** `MAIN_GENRES[genre]` when `genre in MAIN_GENRES`. */
  function GenreId(genre: string): (r: Option<int>)
    ensures r.Some? <==> exists k :: 0 <= k < |MainGenres| && MainGenres[k].0 == genre
    ensures r.Some? ==> exists k :: 0 <= k < |MainGenres| && MainGenres[k] == (genre, r.value)
  {
    Lookup(MainGenres, genre)
  }

  function Lookup(table: seq<(string, int)>, key: string): (r: Option<int>)
    ensures r.Some? <==> exists k :: 0 <= k < |table| && table[k].0 == key
    ensures r.Some? ==> exists k :: 0 <= k < |table| && table[k] == (key, r.value)
  {
    if table == [] then None
    else if table[0].0 == key then Some(table[0].1)
    else
      var r := Lookup(table[1..], key);
      assert forall k :: 0 <= k < |table| - 1 ==> table[1..][k] == table[k + 1];
      r
  }

  /** The query parameters of the random-movie request. */
  datatype FilterParams = FilterParams(order: string, kind: string, page: int, genre: Option<int>)

  /** The parameters `get_random_movie` sends; `page` is the value drawn by
      `random.randint(1, 5)`. A genre filter is added only for a genre that is
      a key of `MAIN_GENRES`. */
  function RandomMovieParams(genre: Option<string>, page: int): (p: FilterParams)
    requires 1 <= page <= 5
    ensures p.order == "RATING" && p.kind == "FILM" && p.page == page
    ensures p.genre.Some? <==> genre.Some? && GenreId(genre.value).Some?
    ensures p.genre.Some? ==> p.genre == GenreId(genre.value)
  {
    var filter := if genre.Some? && genre.value != "" then GenreId(genre.value) else None;
    FilterParams("RATING", "FILM", page, filter)
  }

  /** The film `get_random_movie` returns: the record at the drawn position
      `choice` (`random.choice`), normalised, or None when the request failed
      or found nothing. */
  function RandomMovie(response: Option<seq<Record>>, choice: nat): (r: Option<Film>)
    requires response.Some? && |response.value| > 0 ==> choice < |response.value|
    ensures r.Some? ==> response.Some? && response.value != [] && NormalizeFilmData(response.value[choice]) == r
    ensures response.Some? && response.value != [] ==> r == NormalizeFilmData(response.value[choice])
    ensures response.None? || response.value == [] ==> r.None?
  {
    match response
    case None => None
    case Some(films) => if films == [] then None else NormalizeFilmData(films[choice])
  }

  datatype RandomReply = RandomFilm(info: MovieReply) | NoRandomFilm

  /** `send_random_movie_handler`: a random film without a genre filter. */
  function SendRandomMovie(page: int, response: Option<seq<Record>>, choice: nat): (r: (FilterParams, RandomReply))
    requires 1 <= page <= 5
    requires response.Some? && |response.value| > 0 ==> choice < |response.value|
    ensures r.0 == RandomMovieParams(None, page) && r.0.genre == None && r.0.page == page
    ensures r.1.RandomFilm? <==> RandomMovie(response, choice).Some?
    ensures r.1.RandomFilm? ==> r.1.info != Unavailable && r.1.info == SendMovieInfo(RandomMovie(response, choice))
  {
    var film := RandomMovie(response, choice);
    (RandomMovieParams(None, page), if film.Some? then RandomFilm(SendMovieInfo(film)) else NoRandomFilm)
  }

  /** The callback data of a genre button (`show_genres_handler`). */
  function GenreCallbackData(genre: string): string {
    GenreCallbackPrefix + genre
  }

  /** The genre names are non-empty, pairwise distinct (they are dictionary
      keys) and free of the callback separator. */
  lemma GenreNamesWellFormed()
    ensures forall k :: 0 <= k < |MainGenres| ==> MainGenres[k].0 != "" && '_' !in MainGenres[k].0
    ensures forall i, j :: 0 <= i < j < |MainGenres| ==> MainGenres[i].0 != MainGenres[j].0
  {
    forall i, j | 0 <= i < j < |MainGenres| ensures MainGenres[i].0 != MainGenres[j].0 {
      var a, b := MainGenres[i].0, MainGenres[j].0;
      assert |a| != |b| || a[0] != b[0];
    }
  }

  /** In a table with distinct keys, looking a key up finds its own entry. */
  lemma {:induction false} LookupFindsEntry(table: seq<(string, int)>, k: nat)
    requires k < |table|
    requires forall i, j :: 0 <= i < j < |table| ==> table[i].0 != table[j].0
    ensures Lookup(table, table[k].0) == Some(table[k].1)
  {
    if k > 0 {
      assert table[0].0 != table[k].0;
      assert table[1..][k - 1] == table[k];
      LookupFindsEntry(table[1..], k - 1);
    }
  }

  /** Every genre button leads back to its genre's filter id. */
  lemma GenreButtonsRoundTrip(k: nat)
    requires k < |MainGenres|
    ensures CallbackArgument(GenreCallbackData(MainGenres[k].0)) == Some(MainGenres[k].0)
    ensures RandomMovieParams(Some(MainGenres[k].0), 1).genre == Some(MainGenres[k].1)
  {
    var g := MainGenres[k].0;
    GenreNamesWellFormed();
    CallbackRoundTrip("genre", g);
    assert GenreCallbackData(g) == "genre" + "_" + g;
    LookupFindsEntry(MainGenres, k);
  }

  /** `show_genres_handler`: one button per genre, in the order of
      `MAIN_GENRES`, each leading back to its own genre's filter id. */
  method ShowGenres() returns (buttons: seq<Button>)
    ensures |buttons| == |MainGenres|
    ensures forall k :: 0 <= k < |MainGenres| ==>
              buttons[k] == Button(Capitalize(MainGenres[k].0), GenreCallbackData(MainGenres[k].0))
    ensures forall k :: 0 <= k < |MainGenres| ==> Lower(buttons[k].text) == Lower(MainGenres[k].0)
    ensures forall k :: 0 <= k < |MainGenres| ==>
              && CallbackArgument(buttons[k].callbackData) == Some(MainGenres[k].0)
              && RandomMovieParams(CallbackArgument(buttons[k].callbackData), 1).genre == Some(MainGenres[k].1)
  {
    buttons := [];
    for i := 0 to |MainGenres|
      invariant |buttons| == i
      invariant forall k :: 0 <= k < i ==> buttons[k] == Button(Capitalize(MainGenres[k].0), GenreCallbackData(MainGenres[k].0))
    {
      var genre := MainGenres[i].0;
      buttons := buttons + [Button(Capitalize(genre), GenreCallbackPrefix + genre)];
    }
    forall k | 0 <= k < |MainGenres| ensures Lower(buttons[k].text) == Lower(MainGenres[k].0) {
      LowerOfCapitalize(MainGenres[k].0);
    }
    forall k | 0 <= k < |MainGenres|
      ensures && CallbackArgument(buttons[k].callbackData) == Some(MainGenres[k].0)
              && RandomMovieParams(CallbackArgument(buttons[k].callbackData), 1).genre == Some(MainGenres[k].1)
    {
      GenreButtonsRoundTrip(k);
    }
  }

  datatype GenreReply = GenreFilm(info: MovieReply) | NoFilmInGenre(genre: string)

  /** `send_movie_by_genre_handler` for callback data starting with `genre_`:
      the request parameters and the answer. */
  function MovieByGenre(data: string, page: int, response: Option<seq<Record>>, choice: nat)
    : (r: (FilterParams, GenreReply))
    requires StartsWith(data, GenreCallbackPrefix)
    requires 1 <= page <= 5
    requires response.Some? && |response.value| > 0 ==> choice < |response.value|
    ensures CallbackArgument(data).Some?
    ensures r.0 == RandomMovieParams(CallbackArgument(data), page)
    ensures r.1.GenreFilm? <==> RandomMovie(response, choice).Some?
    ensures r.1.GenreFilm? ==> r.1.info == SendMovieInfo(RandomMovie(response, choice))
    ensures r.1.NoFilmInGenre? ==> r.1.genre == CallbackArgument(data).value && '_' !in r.1.genre
  {
    ArgumentAfterPrefix("genre", data);
    var genre := CallbackArgument(data).value;
    var film := RandomMovie(response, choice);
    (RandomMovieParams(Some(genre), page), if film.Some? then GenreFilm(SendMovieInfo(film)) else NoFilmInGenre(genre))
  }
}
