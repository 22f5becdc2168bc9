/** `useCommonStore` (src/stores/commonStore.js) as an object whose mutators
    assign its fields and write through to its `localStorage` map. */
module Store {
  import opened Options
  import opened Json
  import Session

  /** The width below which the window counts as a mobile screen. */
  const MobileWidthLimit: int := 768

  class CommonStore {
    var isMobile: bool
    var token: string
    var userInfo: Json
    var isShowLoginModal: bool
    var historyList: Json
    /** `localStorage`, key by key. */
    var storage: map<string, string>
    /** `JSON.stringify` and `JSON.parse`. */
    const codec: Codec

    /** The store's fields as one value. */
    function Snapshot(): Session.State
      reads this
    {
      Session.State(isMobile, token, userInfo, isShowLoginModal, historyList, storage)
    }

    /** The store's invariant: JSON behaves and storage mirrors memory. */
    ghost predicate Valid()
      reads this
    {
      Lawful(codec) && Session.Mirrors(Snapshot(), codec)
    }

    /** `isLogin`: recomputed from the live token on every read. */
    function IsLogin(): (r: bool)
      reads this
      ensures r <==> token != ""
    {
      Session.IsLogin(Snapshot())
    }

    constructor (init: Session.State, codec: Codec)
      requires Lawful(codec) && Session.Mirrors(init, codec)
      ensures Valid() && Snapshot() == init && this.codec == codec
    {
      isMobile := init.isMobile;
      token := init.token;
      userInfo := init.userInfo;
      isShowLoginModal := init.isShowLoginModal;
      historyList := init.historyList;
      storage := init.storage;
      this.codec := codec;
    }

    /** The store's setup function: reads `token`, `userInfo` and `historyList`
        from `localStorage`. Gives `null` where a `JSON.parse` throws, so that
        `useCommonStore()` fails. */
    static method Open(storage: map<string, string>, codec: Codec) returns (store: CommonStore?)
      requires Lawful(codec)
      ensures store == null <==> Session.Hydrate(storage, codec).None?
      ensures store != null ==>
        fresh(store) && store.Valid() && store.codec == codec
        && Session.Hydrate(storage, codec) == Some(store.Snapshot())
    {
      var init := Session.Hydrate(storage, codec);
      if init.None? {
        return null;
      }
      Session.HydrateMirrors(storage, codec);
      store := new CommonStore(init.value, codec);
    }

    method SetIsMobile(value: bool)
      requires Valid()
      modifies this
      ensures Valid()
      ensures Snapshot() == Session.Apply(old(Snapshot()), Session.SetIsMobile(value), codec)
    {
      isMobile := value;
    }

    /** `checkIsMobile` for one reading of `window.innerWidth`. */
    method CheckIsMobile(width: int)
      requires Valid()
      modifies this
      ensures Valid()
      ensures isMobile == (width < MobileWidthLimit)
      ensures Snapshot() == Session.Apply(old(Snapshot()), Session.SetIsMobile(width < MobileWidthLimit), codec)
    {
      SetIsMobile(width < MobileWidthLimit);
    }

    method SetToken(value: string)
      requires Valid()
      modifies this
      ensures Valid()
      ensures Snapshot() == Session.Apply(old(Snapshot()), Session.SetToken(value), codec)
    {
      token := value;
      storage := storage[Session.TokenKey := value];
      Session.ApplyMirrors(old(Snapshot()), Session.SetToken(value), codec);
    }

    method ClearToken()
      requires Valid()
      modifies this
      ensures Valid()
      ensures Snapshot() == Session.Apply(old(Snapshot()), Session.ClearToken, codec)
    {
      token := "";
      storage := storage - {Session.TokenKey};
      Session.ApplyMirrors(old(Snapshot()), Session.ClearToken, codec);
    }

    method SetLoginState(value: bool)
      requires Valid()
      modifies this
      ensures Valid()
      ensures Snapshot() == Session.Apply(old(Snapshot()), Session.SetLoginState(value), codec)
    {
      if !value {
        ClearToken();
        SetUserInfo(EmptyObject);
      }
    }

    method SetUserInfo(info: Json)
      requires Valid()
      modifies this
      ensures Valid()
      ensures Snapshot() == Session.Apply(old(Snapshot()), Session.SetUserInfo(info), codec)
    {
      userInfo := info;
      storage := storage[Session.UserInfoKey := codec.stringify(info)];
      Session.ApplyMirrors(old(Snapshot()), Session.SetUserInfo(info), codec);
    }

    method SetIsShowLoginModal(value: bool)
      requires Valid()
      modifies this
      ensures Valid()
      ensures Snapshot() == Session.Apply(old(Snapshot()), Session.SetIsShowLoginModal(value), codec)
    {
      isShowLoginModal := value;
    }

    method UpdateHistoryList(list: Json)
      requires Valid()
      modifies this
      ensures Valid()
      ensures Snapshot() == Session.Apply(old(Snapshot()), Session.UpdateHistoryList(list), codec)
    {
      historyList := list;
      storage := storage[Session.HistoryListKey := codec.stringify(list)];
      Session.ApplyMirrors(old(Snapshot()), Session.UpdateHistoryList(list), codec);
    }
  }
}
