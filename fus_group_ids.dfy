/**
 * `FUSGroupIds.IndexedRepositories`: the repositories the usage statistics may name,
 * each with the repository ids and URLs that identify it, and the two lookups that map
 * an id to its entry and accept only the URLs listed here.
 */
module FusGroupIds {
  import Wrappers
  import opened Text

  datatype IndexedRepository = Other | None | MavenCentral | GoogleMaven | JetbrainsRepos | Clojars

  /** The entries in declaration order (`entries`). */
  const Entries: seq<IndexedRepository> := [Other, None, MavenCentral, GoogleMaven, JetbrainsRepos, Clojars]

  function Ids(r: IndexedRepository): seq<string> {
    match r
    case Other => []
    case None => []
    case MavenCentral => ["maven_central"]
    case GoogleMaven => ["gmaven"]
    case JetbrainsRepos => ["dokka_dev", "compose_dev", "ktor_eap", "space_sdk"]
    case Clojars => ["clojars"]
  }

  const Https := "https://"
  const JetbrainsSpace := Https + "maven.pkg.jetbrains.space"

  function Urls(r: IndexedRepository): seq<string> {
    match r
    case Other => []
    case None => []
    case MavenCentral => [
      Https + "repo.maven.apache.org/maven2/",
      Https + "maven-central.storage-download.googleapis.com/maven2",
      Https + "repo1.maven.org/maven2/"]
    case GoogleMaven => [Https + "maven.google.com/"]
    case JetbrainsRepos => [
      JetbrainsSpace + "/kotlin/p/dokka/dev/",
      JetbrainsSpace + "/public/p/compose/dev/",
      JetbrainsSpace + "/public/p/ktor/eap/",
      JetbrainsSpace + "/public/p/space/maven/"]
    case Clojars => [Https + "repo.clojars.org/"]
  }

  /** `entries.find { id in it.ids }`. */
  function FindById(es: seq<IndexedRepository>, id: string): (r: Wrappers.Option<IndexedRepository>)
    ensures r.Some? ==> r.value in es && id in Ids(r.value)
    ensures r.None? <==> forall e :: e in es ==> id !in Ids(e)
  {
    if es == [] then Wrappers.None
    else if id in Ids(es[0]) then Wrappers.Some(es[0])
    else FindById(es[1..], id)
  }

  /** `forId`: no entry for a null or blank id, the entry listing the id, or `Other`. */
  function ForId(repositoryId: Wrappers.Option<string>): (r: IndexedRepository)
    ensures r == None <==> repositoryId.None? || IsBlank(repositoryId.value)
    ensures r != None && r != Other ==> repositoryId.value in Ids(r)
    ensures r == Other ==> forall e :: e in Entries ==> repositoryId.value !in Ids(e)
  {
    if repositoryId.None? || IsBlank(repositoryId.value) then None
    else
      match FindById(Entries, repositoryId.value)
      case Some(e) => e
      case None => Other
  }

  /** An id is told apart by its first letter and its length, which no two entries share. */
  function IdKey(id: string): (char, int)
    requires |id| > 0
  {
    (id[0], |id|)
  }

  function IdKeys(r: IndexedRepository): set<(char, int)> {
    match r
    case Other => {}
    case None => {}
    case MavenCentral => {('m', 13)}
    case GoogleMaven => {('g', 6)}
    case JetbrainsRepos => {('d', 9), ('c', 11), ('k', 8), ('s', 9)}
    case Clojars => {('c', 7)}
  }

  lemma IdKeyListed(e: IndexedRepository, id: string)
    requires id in Ids(e)
    ensures |id| > 0 && IdKey(id) in IdKeys(e)
  {
  }

  lemma IdsDisjoint(e1: IndexedRepository, e2: IndexedRepository, id: string)
    requires id in Ids(e1) && id in Ids(e2)
    ensures e1 == e2
  {
    IdKeyListed(e1, id);
    IdKeyListed(e2, id);
  }

  /** Each listed id leads back to its own entry: the id sets are disjoint. */
  lemma ForIdRoundTrip(e: IndexedRepository, id: string)
    requires id in Ids(e)
    ensures ForId(Wrappers.Some(id)) == e
  {
    IdKeyListed(e, id);
    assert !IsBlank(id) by {
      assert id[0] != ' ' && id[0] != '\t' && id[0] != '\n' && id[0] != '\r';
    }
    assert e in Entries;
    var found := FindById(Entries, id);
    IdsDisjoint(found.value, e, id);
  }

  function FlatUrls(es: seq<IndexedRepository>): (r: seq<string>)
    ensures forall u :: u in r <==> exists e :: e in es && u in Urls(e)
  {
    if es == [] then []
    else
      assert forall e :: e in es <==> e == es[0] || e in es[1..];
      Urls(es[0]) + FlatUrls(es[1..])
  }

  /** `indexedRepositoryUrls`: every entry's URLs, in entry order. */
  function IndexedRepositoryUrls(): seq<string> {
    FlatUrls(Entries)
  }

  /** `validateUrl`: a URL is kept only when it is one of the indexed ones. */
  function ValidateUrl(repositoryUrl: Wrappers.Option<string>): (r: Wrappers.Option<string>)
    ensures r.Some? ==> r == repositoryUrl
    ensures r.Some? <==> repositoryUrl.Some? && !IsBlank(repositoryUrl.value) && repositoryUrl.value in IndexedRepositoryUrls()
  {
    if repositoryUrl.None? || IsBlank(repositoryUrl.value) then Wrappers.None
    else if repositoryUrl.value in IndexedRepositoryUrls() then repositoryUrl
    else Wrappers.None
  }

  /** No indexed URL is blank, so the blank test never rejects a listed URL. */
  lemma ValidateUrlAcceptsExactlyListed(url: string)
    ensures ValidateUrl(Wrappers.Some(url)).Some? <==> url in IndexedRepositoryUrls()
  {
    FlatUrlsNotBlank(Entries);
  }

  lemma {:induction false} FlatUrlsNotBlank(es: seq<IndexedRepository>)
    ensures forall u :: u in FlatUrls(es) ==> !IsBlank(u)
  {
    if es != [] {
      FlatUrlsNotBlank(es[1..]);
      UrlsStartWithScheme(es[0]);
      forall u | u in Urls(es[0]) ensures !IsBlank(u) {
        assert !IsWhitespace(u[0]);
      }
    }
  }

  lemma UrlsStartWithScheme(e: IndexedRepository)
    ensures forall u :: u in Urls(e) ==> |u| > 0 && u[0] == 'h'
  {
    assert Https[0] == 'h';
    assert JetbrainsSpace[0] == 'h';
  }
}
