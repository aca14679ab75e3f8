/** The root application state: the current screen, the cart, the signed-in
    display name and the notification queue, with the handlers the root hands
    down to the screens. Simulated network delays are modelled as completed
    transitions; every clock reading used as a toast id is a parameter. */
module AppState {
  import opened Types
  import opened CartOps
  import opened Notifications

  /** The display name every successful sign-in produces. */
  const LoginDisplayName: string := "Nguyễn Văn Thực Thần"

  /** The fixed text the AI suggestion box shows once its delay has elapsed. */
  const AiSuggestionText: string :=
    "Dựa trên yêu cầu của bạn, tôi gợi ý bạn thử **Phở Thìn Lò Đúc** cho bữa nay!"

  const RemovedFromCartMessage: string := "Đã xóa món khỏi giỏ hàng"
  const LoggedOutMessage: string := "Đã đăng xuất"
  const MissingCredentialsMessage: string := "Vui lòng nhập Email và Mật khẩu"
  const MissingPromptMessage: string := "Vui lòng nhập nội dung để AI gợi ý!"
  const ProfileSavedMessage: string := "Đã cập nhật thông tin thành công!"

  function AddedToCartMessage(name: string): string
  {
    "Đã thêm " + name + " vào giỏ"
  }

  function WelcomeMessage(name: string): string
  {
    "Chào mừng " + name + " quay trở lại!"
  }

  /** The sign-in form's guard: both fields must be non-empty. */
  predicate CredentialsPresent(email: string, password: string)
  {
    email != "" && password != ""
  }

  /** The navbar is shown on every screen except the sign-in screen. */
  predicate ShowsNavbar(v: View)
  {
    v != Auth
  }

  /** The order button is rendered only on a non-empty checkout screen. */
  predicate OrderButtonShown(v: View, cart: seq<CartItem>)
  {
    v == Checkout && cart != []
  }

  /** Whenever the order button is on screen the badge shows at least one
      item, so an order is never placed from an empty valid cart. */
  lemma OrderButtonNeedsItems(v: View, cart: seq<CartItem>)
    requires OrderButtonShown(v, cart) && ValidCart(cart)
    ensures ItemCount(cart) >= 1
  {
    ItemCountBounds(cart);
  }

  class App {
    var currentView: View
    var cart: seq<CartItem>
    /** The signed-in display name; empty means a guest. */
    var userName: string
    var toasts: seq<Toast>

    ghost predicate Valid()
      reads this
    {
      ValidCart(cart)
    }

    predicate IsGuest()
      reads this
    {
      userName == ""
    }

    /** The state the application mounts with. */
    constructor ()
      ensures Valid()
      ensures currentView == Landing && cart == [] && userName == "" && toasts == []
    {
      currentView := Landing;
      cart := [];
      userName := "";
      toasts := [];
    }

    /** `setCurrentView`: navigation is unconditional. */
    method Navigate(v: View)
      modifies this`currentView
      ensures currentView == v
    {
      currentView := v;
    }

    /** `addToast(message, type = 'info')` with the clock reading `id`. */
    method AddToast(id: int, message: string, kind: ToastType := Info)
      modifies this`toasts
      ensures toasts == PushToast(old(toasts), id, message, kind)
    {
      toasts := PushToast(toasts, id, message, kind);
    }

    /** `removeToast(id)`, run both by the dismiss button and by the expiry timer. */
    method RemoveToast(id: int)
      modifies this`toasts
      ensures toasts == DropToast(old(toasts), id)
    {
      toasts := DropToast(toasts, id);
    }

    /** `addToCart(item)`: merge into the cart, then a success toast naming the item. */
    method AddToCart(item: MenuItem, toastId: int)
      requires Valid()
      modifies this`cart, this`toasts
      ensures Valid()
      ensures cart == CartOps.AddToCart(old(cart), item)
      ensures ItemCount(cart) == ItemCount(old(cart)) + 1
      ensures toasts == PushToast(old(toasts), toastId, AddedToCartMessage(item.name), Success)
    {
      var next := CartOps.AddToCart(cart, item);
      AddToCartKeepsValid(cart, item);
      AddToCartCount(cart, item);
      cart := next;
      AddToast(toastId, AddedToCartMessage(item.name), Success);
    }

    /** `updateQuantity(id, delta)`: the +/- buttons on the checkout screen. */
    method UpdateQuantity(id: string, delta: int)
      requires Valid()
      modifies this`cart
      ensures Valid()
      ensures cart == CartOps.UpdateQuantity(old(cart), id, delta)
    {
      UpdateQuantityKeepsValid(cart, id, delta);
      cart := CartOps.UpdateQuantity(cart, id, delta);
    }

    /** `removeFromCart(id)`: drop the entry, then an info toast. */
    method RemoveFromCart(id: string, toastId: int)
      requires Valid()
      modifies this`cart, this`toasts
      ensures Valid()
      ensures cart == CartOps.RemoveFromCart(old(cart), id)
      ensures !HasId(cart, id)
      ensures toasts == PushToast(old(toasts), toastId, RemovedFromCartMessage, Info)
    {
      RemoveKeepsValid(cart, id);
      cart := CartOps.RemoveFromCart(cart, id);
      AddToast(toastId, RemovedFromCartMessage, Info);
    }

    /** `clearCart()`. */
    method ClearCart()
      modifies this`cart
      ensures Valid() && cart == []
    {
      cart := [];
    }

    /** `handleLogin(name)`: record the display name and greet the user. */
    method Login(name: string, toastId: int)
      modifies this`userName, this`toasts
      ensures userName == name
      ensures toasts == PushToast(old(toasts), toastId, WelcomeMessage(name), Success)
    {
      userName := name;
      AddToast(toastId, WelcomeMessage(name), Success);
    }

    /** `handleLogout()`: from any state, back to a guest with an empty cart on the
        landing screen, with one info toast. */
    method Logout(toastId: int)
      modifies this`userName, this`cart, this`currentView, this`toasts
      ensures Valid() && IsGuest() && ShowsNavbar(currentView)
      ensures userName == "" && cart == [] && currentView == Landing
      ensures toasts == PushToast(old(toasts), toastId, LoggedOutMessage, Info)
    {
      userName := "";
      cart := [];
      currentView := Landing;
      AddToast(toastId, LoggedOutMessage, Info);
    }

    /** The sign-in form's submit handler with its delay elapsed: empty fields
        raise an error toast and change nothing else; otherwise any pair is
        accepted, the fixed display name is signed in and the landing screen shown. */
    method SubmitLogin(email: string, password: string, toastId: int) returns (accepted: bool)
      modifies this`userName, this`currentView, this`toasts
      ensures accepted == CredentialsPresent(email, password)
      ensures !accepted ==> userName == old(userName) && currentView == old(currentView)
      ensures !accepted ==> toasts == PushToast(old(toasts), toastId, MissingCredentialsMessage, Error)
      ensures accepted ==> userName == LoginDisplayName && currentView == Landing
      ensures accepted ==> ShowsNavbar(currentView)
      ensures accepted ==> toasts == PushToast(old(toasts), toastId, WelcomeMessage(LoginDisplayName), Success)
    {
      if email == "" || password == "" {
        AddToast(toastId, MissingCredentialsMessage, Error);
        return false;
      }
      Login(LoginDisplayName, toastId);
      Navigate(Landing);
      return true;
    }

    /** The checkout screen's order handler with its delay elapsed: the cart is
        emptied and the order-success screen shown. The handler itself has no
        guard; only `OrderButtonShown` states can reach it. */
    method PlaceOrder()
      modifies this`cart, this`currentView
      ensures Valid()
      ensures cart == [] && currentView == OrderSuccess
      ensures !OrderButtonShown(currentView, cart)
    {
      ClearCart();
      Navigate(OrderSuccess);
    }

    /** The profile screen's save handler: the new display name and a success toast. */
    method SaveProfile(name: string, toastId: int)
      modifies this`userName, this`toasts
      ensures userName == name
      ensures toasts == PushToast(old(toasts), toastId, ProfileSavedMessage, Success)
    {
      userName := name;
      AddToast(toastId, ProfileSavedMessage, Success);
    }

    /** The landing screen's AI suggestion handler with its delay elapsed. An
        empty prompt raises an info toast and shows nothing new (`None`);
        otherwise the fixed suggestion is shown and no toast is raised. */
    method RequestAiSuggestion(prompt: string, toastId: int) returns (shown: Option<string>)
      modifies this`toasts
      ensures prompt == "" ==> shown == None && toasts == PushToast(old(toasts), toastId, MissingPromptMessage)
      ensures prompt != "" ==> shown == Some(AiSuggestionText) && toasts == old(toasts)
    {
      if prompt == "" {
        AddToast(toastId, MissingPromptMessage);
        return None;
      }
      return Some(AiSuggestionText);
    }
  }
}
