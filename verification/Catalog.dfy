/** The static mock data the state container starts from: the menu that the
    merchant dashboard seeds its list with, and the seed bookings. */
module Catalog {
  import opened Types

  const PhoTaiLan := MenuItem(
    "m1", "Phở Tái Lăn", 65000,
    "Thịt bò xào lăn tỏi thơm lừng, nước dùng đậm đà béo ngậy.",
    "https://images.unsplash.com/photo-1582878826629-29b7ad1cdc43?auto=format&fit=crop&q=80&w=400",
    "Phở", true)

  const PhoNamGau := MenuItem(
    "m2", "Phở Nạm Gầu", 70000,
    "Nạm mềm, gầu giòn, bánh phở tươi làm trong ngày.",
    "https://images.unsplash.com/photo-1518133910546-b6c2fb7d79e3?auto=format&fit=crop&q=80&w=400",
    "Phở", false)

  const QuayGion := MenuItem(
    "m3", "Quẩy Giòn", 5000,
    "Quẩy nóng giòn tan ăn kèm phở.",
    "https://images.unsplash.com/photo-1626805872624-c102b48873ba?auto=format&fit=crop&q=80&w=400",
    "Món kèm", false)

  const MockMenu: seq<MenuItem> := [PhoTaiLan, PhoNamGau, QuayGion]

  /** The two reservations the merchant dashboard mounts with. */
  const SeedBookings: seq<Booking> := [
    Booking(1, "Nguyễn Văn A", "19:00", 4, "0912***789", Pending),
    Booking(2, "Trần Thị B", "19:30", 2, "0988***123", Confirmed)
  ]
}
