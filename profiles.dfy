/** The profile manager dialog: the list of saved profiles (a name, the
    application name it is meant for, and a presence configuration), the
    profile being edited and the name typed for a new profile. Each handler
    computes the next state from the current one. */
module Profiles {
  import opened Wrappers
  import opened JsString

  /** A presence configuration; every member is optional. */
  datatype Config = Config(
    details: Option<string>,
    state: Option<string>,
    largeImageKey: Option<string>,
    largeImageText: Option<string>,
    smallImageKey: Option<string>,
    smallImageText: Option<string>,
    button1Label: Option<string>,
    button1Url: Option<string>,
    button2Label: Option<string>,
    button2Url: Option<string>,
    startTimestamp: Option<bool>)

  datatype Profile = Profile(id: string, name: string, applicationPattern: string, config: Config)

  datatype CurrentApplication = CurrentApplication(name: string, processId: nat, windowTitle: string)

  datatype State = State(profiles: seq<Profile>, editingProfile: Option<Profile>, newProfileName: string)

  /** The profile built by `handleSaveCurrentAsProfile` at time `now`. */
  function NewProfile(newProfileName: string, app: CurrentApplication, config: Config, now: nat): (p: Profile)
    ensures p.id == NatToString(now)
    ensures p.name == (if newProfileName != "" then newProfileName else app.name)
    ensures p.applicationPattern == app.name && p.config == config
  {
    Profile(NatToString(now), if newProfileName != "" then newProfileName else app.name, app.name, config)
  }

  /** `handleSaveCurrentAsProfile`: nothing without a current application or
      configuration; otherwise append the new profile and clear the name. */
  function SaveCurrentAsProfile(st: State, app: Option<CurrentApplication>, config: Option<Config>,
                                now: nat): (r: State)
    ensures (app.None? || config.None?) ==> r == st
    ensures app.Some? && config.Some? ==>
      && r.profiles == st.profiles + [NewProfile(st.newProfileName, app.value, config.value, now)]
      && r.newProfileName == "" && r.editingProfile == st.editingProfile
  {
    if app.None? || config.None? then st
    else State(st.profiles + [NewProfile(st.newProfileName, app.value, config.value, now)],
               st.editingProfile, "")
  }

  /** `profiles.filter(p => p.id !== id)` */
  function WithoutId(ps: seq<Profile>, id: string): (r: seq<Profile>)
    ensures |r| <= |ps|
    ensures forall p :: p in r ==> p in ps && p.id != id
    ensures forall p :: p in ps && p.id != id ==> p in r
  {
    if |ps| == 0 then []
    else
      var rest := WithoutId(ps[1..], id);
      assert forall p :: p in ps ==> p == ps[0] || p in ps[1..];
      if ps[0].id != id then [ps[0]] + rest else rest
  }

  /** The filter keeps the order: it distributes over concatenation. */
  lemma {:induction false} WithoutIdAppend(a: seq<Profile>, b: seq<Profile>, id: string)
    ensures WithoutId(a + b, id) == WithoutId(a, id) + WithoutId(b, id)
  {
    if |a| == 0 {
      assert a + b == b;
    } else {
      assert (a + b)[0] == a[0];
      assert (a + b)[1..] == a[1..] + b;
      WithoutIdAppend(a[1..], b, id);
    }
  }

  /** A list without the id is left as it is. */
  lemma {:induction false} WithoutIdAbsent(ps: seq<Profile>, id: string)
    requires forall k :: 0 <= k < |ps| ==> ps[k].id != id
    ensures WithoutId(ps, id) == ps
  {
    if |ps| > 0 {
      WithoutIdAbsent(ps[1..], id);
      assert ps == [ps[0]] + ps[1..];
    }
  }

  /** `handleDeleteProfile(id)` */
  function DeleteProfile(st: State, id: string): (r: State)
    ensures r.profiles == WithoutId(st.profiles, id)
    ensures r.editingProfile == st.editingProfile && r.newProfileName == st.newProfileName
  {
    st.(profiles := WithoutId(st.profiles, id))
  }

  /** Deleting removes every profile with the id and keeps all others. */
  lemma DeleteProfileRemoves(st: State, id: string)
    ensures forall p :: p in DeleteProfile(st, id).profiles <==> p in st.profiles && p.id != id
  {
  }

  /** Deleting twice is deleting once. */
  lemma DeleteProfileIdempotent(st: State, id: string)
    ensures DeleteProfile(DeleteProfile(st, id), id) == DeleteProfile(st, id)
  {
    var once := WithoutId(st.profiles, id);
    WithoutIdAbsent(once, id);
  }

  /** Deleting the profile just saved gives back the previous list, when
      no saved profile had that id already. */
  lemma DeleteUndoesSave(st: State, app: CurrentApplication, config: Config, now: nat)
    requires forall k :: 0 <= k < |st.profiles| ==> st.profiles[k].id != NatToString(now)
    ensures DeleteProfile(SaveCurrentAsProfile(st, Some(app), Some(config), now), NatToString(now)).profiles
         == st.profiles
  {
    var p := NewProfile(st.newProfileName, app, config, now);
    WithoutIdAppend(st.profiles, [p], NatToString(now));
    WithoutIdAbsent(st.profiles, NatToString(now));
    assert [p][1..] == [];
  }

  /** `handleEditProfile(profile)` */
  function EditProfile(st: State, p: Profile): (r: State)
    ensures r.editingProfile == Some(p)
    ensures r.profiles == st.profiles && r.newProfileName == st.newProfileName
  {
    st.(editingProfile := Some(p))
  }

  /** `profiles.map(p => p.id === e.id ? e : p)` */
  function ReplaceById(ps: seq<Profile>, e: Profile): (r: seq<Profile>)
    ensures |r| == |ps|
    ensures forall k :: 0 <= k < |ps| ==> r[k] == (if ps[k].id == e.id then e else ps[k])
  {
    seq(|ps|, k requires 0 <= k < |ps| => if ps[k].id == e.id then e else ps[k])
  }

  /** `handleSaveEdit`: nothing when no profile is being edited; otherwise
      every profile with its id becomes the edited one, and the editing
      ends. */
  function SaveEdit(st: State): (r: State)
    ensures st.editingProfile.None? ==> r == st
    ensures st.editingProfile.Some? ==>
      r == State(ReplaceById(st.profiles, st.editingProfile.value), None, st.newProfileName)
  {
    match st.editingProfile
    case None => st
    case Some(e) => State(ReplaceById(st.profiles, e), None, st.newProfileName)
  }

  /** After saving an edit, the profiles with the edited id are exactly
      copies of the edited profile, the others are untouched, and saving the
      same edit again changes nothing. */
  lemma SaveEditReplaces(st: State, e: Profile)
    ensures var r := SaveEdit(EditProfile(st, e));
      && |r.profiles| == |st.profiles|
      && (forall k :: 0 <= k < |st.profiles| && st.profiles[k].id == e.id ==> r.profiles[k] == e)
      && (forall k :: 0 <= k < |st.profiles| && st.profiles[k].id != e.id ==> r.profiles[k] == st.profiles[k])
      && r.editingProfile.None?
      && SaveEdit(EditProfile(r, e)).profiles == r.profiles
  {
    var r := SaveEdit(EditProfile(st, e));
    assert ReplaceById(r.profiles, e) == r.profiles;
  }

  /** Editing keeps the ids, so it never changes which profiles a later
      delete removes. */
  lemma SaveEditKeepsIds(st: State, e: Profile, k: nat)
    requires k < |st.profiles|
    ensures SaveEdit(EditProfile(st, e)).profiles[k].id == st.profiles[k].id
  {
  }
}
